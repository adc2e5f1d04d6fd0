/** The expression parser of ludus/helper_parser.py: recursive descent over a token
    list with a cursor (`current_token`, `current_token_index`), and identifier
    lookups in a stack of scopes.

    The first half states what each `parse_*` method computes as a function of the
    tokens and the position of the current token (`ExprAt`, `OrAt`, ...); the class
    `Helper` below is the Python class, whose methods move the cursor and are proved
    to compute exactly these functions. The `scope` argument the Python methods pass
    along is never read and is left out. */
module HelperParser {
  import opened Results
  import opened Nodes
  import Values
  import Decimal
  import Lexer

  type Token = Lexer.Token

  /** What a scope records for a name; the analyser reads only its "type" entry
      ("a variable", "an array", "a struct instance", "a function", "a parameter"). */
  datatype IdInfo = IdInfo(idType: string)

  type Scope = map<string, IdInfo>

  // ---- identifier lookup ---------------------------------------------------------

  /** `lookup_identifier(name)`: the scopes are searched from the innermost (last). */
  function LookupIdentifier(scopes: seq<Scope>, name: string): (found: bool)
    ensures found <==> exists i :: 0 <= i < |scopes| && name in scopes[i]
  {
    if scopes == [] then false
    else if name in scopes[|scopes| - 1] then true
    else
      var found := LookupIdentifier(scopes[..|scopes| - 1], name);
      assert forall i :: 0 <= i < |scopes| - 1 ==> scopes[..|scopes| - 1][i] == scopes[i];
      found
  }

  /** `scopes[i]` is the innermost scope that binds `name`. */
  ghost predicate InnermostAt(scopes: seq<Scope>, name: string, i: int) {
    0 <= i < |scopes| && name in scopes[i] && forall j :: i < j < |scopes| ==> name !in scopes[j]
  }

  const NotDeclared: string := "' not declared."

  /** `get_identifier_info(name)`: the entry of the innermost scope that binds the
      name; a name no scope binds raises. */
  function GetIdentifierInfo(scopes: seq<Scope>, name: string): (r: Result<IdInfo>)
    ensures r.Ok? <==> LookupIdentifier(scopes, name)
    ensures r.Ok? ==> exists i :: InnermostAt(scopes, name, i) && r.value == scopes[i][name]
    ensures r.Err? ==> r.exc == Exc(SemanticError, "Identifier '" + name + NotDeclared)
  {
    if scopes == [] then Fail(SemanticError, "Identifier '" + name + NotDeclared)
    else if name in scopes[|scopes| - 1] then
      assert InnermostAt(scopes, name, |scopes| - 1);
      Ok(scopes[|scopes| - 1][name])
    else
      var inner := scopes[..|scopes| - 1];
      var r := GetIdentifierInfo(inner, name);
      assert forall i :: 0 <= i < |inner| ==> inner[i] == scopes[i];
      if r.Ok? then
        assert forall i :: InnermostAt(inner, name, i) ==> InnermostAt(scopes, name, i);
        r
      else r
  }

  /** The innermost entry is unique, whatever scope the search finds it in. */
  lemma InnermostUnique(scopes: seq<Scope>, name: string, i: int, j: int)
    requires InnermostAt(scopes, name, i) && InnermostAt(scopes, name, j)
    ensures i == j
  {
  }

  /** `lookup_id_type(name, id_type)`: false for a name no scope binds, true when the
      innermost entry has the type asked for, and an error naming the declared type
      otherwise. */
  function LookupIdType(scopes: seq<Scope>, name: string, idType: string): (r: Result<bool>)
    ensures !LookupIdentifier(scopes, name) ==> r == Ok(false)
    ensures LookupIdentifier(scopes, name) ==>
      (r == Ok(true) <==> GetIdentifierInfo(scopes, name).value.idType == idType)
    ensures LookupIdentifier(scopes, name) && GetIdentifierInfo(scopes, name).value.idType != idType ==>
      r.Err? && r.exc.kind == SemanticError
  {
    if scopes == [] then Ok(false)
    else if name in scopes[|scopes| - 1] then
      var info := scopes[|scopes| - 1][name];
      if info.idType == idType then Ok(true)
      else Fail(SemanticError, "1 NameError: Identifier '" + name + "' is already declared as " + info.idType + ".")
    else
      var inner := scopes[..|scopes| - 1];
      assert forall i :: 0 <= i < |inner| ==> inner[i] == scopes[i];
      LookupIdType(inner, name, idType)
  }

  // ---- the token stream ------------------------------------------------------------

  /** The parser's input: the tokens, the scope stack and `func_flag`. */
  datatype Ctx = Ctx(tokens: seq<Token>, scopes: seq<Scope>, funcFlag: bool)

  /** A parsed node and the position of the token that is current afterwards. */
  datatype Parsed = Parsed(node: Node, pos: nat)
  datatype ParsedList = ParsedList(nodes: seq<Node>, pos: nat)

  const SPACE: string := "space"

  /** The current token is the one at `p`; `p == |toks|` means `None`. */
  predicate At(toks: seq<Token>, p: nat, t: string) {
    p < |toks| && toks[p].token == t
  }

  /** `self.current_token = self.get_next_token()`: one token on, and `None` stays `None`. */
  function Next(toks: seq<Token>, p: nat): (q: nat)
    requires p <= |toks|
    ensures q <= |toks|
  {
    if p < |toks| then p + 1 else p
  }

  /** `skip_spaces()`: the first position from `p` on whose token is not a space. */
  function PastSpaces(toks: seq<Token>, p: nat): (q: nat)
    requires p <= |toks|
    ensures p <= q <= |toks|
    ensures q < |toks| ==> toks[q].token != SPACE
    ensures forall k :: p <= k < q ==> toks[k].token == SPACE
    decreases |toks| - p
  {
    if p < |toks| && toks[p].token == SPACE then PastSpaces(toks, p + 1) else p
  }

  /** `look_ahead()` from token index `i`: the first token there or later that is not
      a space. */
  function NextNonSpace(toks: seq<Token>, i: nat): (t: Option<Token>)
    ensures t.Some? <==> exists k :: i <= k < |toks| && toks[k].token != SPACE
    ensures t.Some? ==> t.value.token != SPACE
    decreases |toks| - i
  {
    if i >= |toks| then None
    else if toks[i].token != SPACE then Some(toks[i])
    else NextNonSpace(toks, i + 1)
  }

  // ---- token classes ----------------------------------------------------------------

  /** `re.match(r'^id\d+$', tk)`: "id" and one or more digits. */
  predicate IsIdToken(t: string) {
    |t| >= 3 && t[0] == 'i' && t[1] == 'd' && Decimal.AllDigits(t[2..])
  }

  /** `token in '+-'`: Python's substring test against the string "+-". */
  predicate IsAdditiveOp(t: string) {
    t == "+" || t == "-" || t == "+-" || t == ""
  }

  /** `token in` the three-character string of `/`, `*` and `%`: its substrings. */
  predicate IsMultiplicativeOp(t: string) {
    t == "/" || t == "*" || t == "%" || t == "/*" || t == "*%" || t == "/*%" || t == ""
  }

  predicate IsRelationalOp(t: string) {
    t == "<" || t == ">" || t == "<=" || t == ">=" || t == "==" || t == "!="
  }

  predicate IsOrOp(t: string) { t == "OR" || t == "||" }

  predicate IsAndOp(t: string) { t == "AND" || t == "&&" }

  predicate StartsWith(s: string, prefix: string) {
    |prefix| <= |s| && s[..|prefix|] == prefix
  }

  /** `re.sub(r'^"(.*)"$', r'\1', s)`: the text between a leading and a trailing
      quote, if no newline lies between them (`$` also matches before a final
      newline, which is then kept). */
  function StripQuotes(s: string): (r: string)
    ensures |r| <= |s|
  {
    if |s| >= 2 && s[0] == '"' && s[|s| - 1] == '"' && '\n' !in s[1..|s| - 1] then s[1..|s| - 1]
    else if |s| >= 3 && s[0] == '"' && s[|s| - 1] == '\n' && s[|s| - 2] == '"' && '\n' !in s[1..|s| - 2] then
      s[1..|s| - 2] + "\n"
    else s
  }

  /** `re.match(r'^\.\d+f$', v)`: a dot, one or more digits, and `f`. */
  predicate IsFormatSpec(v: string) {
    || (|v| >= 3 && v[0] == '.' && v[|v| - 1] == 'f' && Decimal.AllDigits(v[1..|v| - 1]))
    || (|v| >= 4 && v[0] == '.' && v[|v| - 1] == '\n' && v[|v| - 2] == 'f' && Decimal.AllDigits(v[1..|v| - 2]))
  }

  /** `int(v[1])`: the first digit of a format specifier. */
  function FormatDigit(v: string): (d: int)
    requires IsFormatSpec(v)
    ensures 0 <= d <= 9
  {
    assert Decimal.IsDigit(v[1]) by {
      if v[|v| - 1] == 'f' {
        assert v[1..|v| - 1][0] == v[1];
      } else {
        assert v[1..|v| - 2][0] == v[1];
      }
    }
    (v[1] as int) - ('0' as int)
  }

  /** The types a name may have where it is used. */
  function Allowed(base: set<string>, funcFlag: bool, extra: set<string>): set<string> {
    base + (if funcFlag then extra else {})
  }

  const NoneToken: Exc := Exc(AttributeError, "'NoneType' object has no attribute 'token'")
  const NoneLexeme: Exc := Exc(AttributeError, "'NoneType' object has no attribute 'lexeme'")
  const NoneKind: Exc := Exc(AttributeError, "'NoneType' object has no attribute 'kind'")
  const MissingScope: Exc := Exc(TypeError, "parse_exp_expr() missing 1 required positional argument: 'scope'")
  const EmptyIndex: string := "IndexError: Index cannot be empty."
  const CloseDimension: string := "Expected ']' to close array dimension."
  const CloseParen: string := "Unexpected token found inside parenthesised expression. Expected closing parenthesis."
  const CloseNegParen: string := "Unexpected token found inside parenthesized expression. Expected closing parenthesis."
  const ExpectFieldId: string := "Expected 'id' after '.' in accessing a struct instance field."
  const UnexpectedEnd: string := "Unexpected end of input during parsing!"
  const LoadInExpr: string := "LoadError: Cannot use load or loadNum function within string literals."
  const FormatInParens: string := "FormatError: xp formatting cannot be used as a value within a parentheses."

  /** `expect(t, msg)`: the error raised when the current token is not `t`. */
  function ExpectError(msg: string): Exc {
    Exc(SemanticError, "Parser Error: " + msg)
  }

  // ---- the parse_* methods as functions --------------------------------------------
  //
  // Each takes the position of the current token and gives the node with the
  // position afterwards. Termination: every expression consumes at least one token
  // (`pos > p`), and calls at the same position go to a lower precedence level.

  /** `parse_expr`: an OR-expression that must be followed by `)` or the end. */
  function ExprAt(c: Ctx, p: nat): (r: Result<Parsed>)
    requires p <= |c.tokens|
    ensures r.Ok? ==> p < r.value.pos <= |c.tokens|
    ensures r.Ok? ==> r.value.pos == |c.tokens| || c.tokens[r.value.pos].token == ")"
    decreases |c.tokens| - p, 20
  {
    var q := PastSpaces(c.tokens, p);
    var e :- OrAt(c, q);
    if e.pos < |c.tokens| && c.tokens[e.pos].token != ")" then
      Fail(SemanticError, "Unexpected token found during parsing: " + c.tokens[e.pos].token)
    else Ok(e)
  }

  /** `parse_or_expr`. */
  function OrAt(c: Ctx, p: nat): (r: Result<Parsed>)
    requires p <= |c.tokens|
    ensures r.Ok? ==> p < r.value.pos <= |c.tokens|
    decreases |c.tokens| - p, 19
  {
    var q := PastSpaces(c.tokens, p);
    var left :- AndAt(c, q);
    OrRest(c, left.node, left.pos)
  }

  /** The `while` loop of `parse_or_expr`, from a left operand. */
  function OrRest(c: Ctx, left: Node, p: nat): (r: Result<Parsed>)
    requires p <= |c.tokens|
    ensures r.Ok? ==> p <= r.value.pos <= |c.tokens|
    decreases |c.tokens| - p, 0
  {
    if p < |c.tokens| && IsOrOp(c.tokens[p].token) then
      var right :- AndAt(c, PastSpaces(c.tokens, p + 1));
      OrRest(c, BinaryExpr(left, c.tokens[p].token, right.node), right.pos)
    else Ok(Parsed(left, p))
  }

  /** `parse_and_expr`. */
  function AndAt(c: Ctx, p: nat): (r: Result<Parsed>)
    requires p <= |c.tokens|
    ensures r.Ok? ==> p < r.value.pos <= |c.tokens|
    decreases |c.tokens| - p, 18
  {
    var q := PastSpaces(c.tokens, p);
    var left :- RelatAt(c, q);
    AndRest(c, left.node, left.pos)
  }

  function AndRest(c: Ctx, left: Node, p: nat): (r: Result<Parsed>)
    requires p <= |c.tokens|
    ensures r.Ok? ==> p <= r.value.pos <= |c.tokens|
    decreases |c.tokens| - p, 0
  {
    if p < |c.tokens| && IsAndOp(c.tokens[p].token) then
      var right :- RelatAt(c, PastSpaces(c.tokens, p + 1));
      AndRest(c, BinaryExpr(left, c.tokens[p].token, right.node), right.pos)
    else Ok(Parsed(left, p))
  }

  /** `parse_relat_expr`: one additive expression, or a chain of comparisons in which
      each comparison's right operand is the next one's left operand. */
  function RelatAt(c: Ctx, p: nat): (r: Result<Parsed>)
    requires p <= |c.tokens|
    ensures r.Ok? ==> p < r.value.pos <= |c.tokens|
    decreases |c.tokens| - p, 17
  {
    var q := PastSpaces(c.tokens, p);
    var left :- AddAt(c, q);
    if !(left.pos < |c.tokens| && IsRelationalOp(c.tokens[left.pos].token)) then Ok(left)
    else Chain(RelatRest(c, left.node, [], left.pos))
  }

  /** `ChainRelatExpr(expr)` over the comparisons the loop collected. */
  function Chain(r: Result<ParsedList>): Result<Parsed> {
    match r
    case Ok(l) => Ok(Parsed(ChainRelatExpr(l.nodes), l.pos))
    case Err(e) => Err(e)
  }

  function RelatRest(c: Ctx, left: Node, acc: seq<Node>, p: nat): (r: Result<ParsedList>)
    requires p <= |c.tokens|
    ensures r.Ok? ==> p <= r.value.pos <= |c.tokens|
    decreases |c.tokens| - p, 0
  {
    if p < |c.tokens| && IsRelationalOp(c.tokens[p].token) then
      var right :- AddAt(c, PastSpaces(c.tokens, p + 1));
      RelatRest(c, right.node, acc + [BinaryExpr(left, c.tokens[p].token, right.node)], right.pos)
    else Ok(ParsedList(acc, p))
  }

  /** `parse_additive_expr`. */
  function AddAt(c: Ctx, p: nat): (r: Result<Parsed>)
    requires p <= |c.tokens|
    ensures r.Ok? ==> p < r.value.pos <= |c.tokens|
    decreases |c.tokens| - p, 16
  {
    var q := PastSpaces(c.tokens, p);
    var left :- MulAt(c, q);
    AddRest(c, left.node, left.pos)
  }

  function AddRest(c: Ctx, left: Node, p: nat): (r: Result<Parsed>)
    requires p <= |c.tokens|
    ensures r.Ok? ==> p <= r.value.pos <= |c.tokens|
    decreases |c.tokens| - p, 0
  {
    if p < |c.tokens| && IsAdditiveOp(c.tokens[p].token) then
      var right :- MulAt(c, PastSpaces(c.tokens, p + 1));
      AddRest(c, BinaryExpr(left, c.tokens[p].token, right.node), right.pos)
    else Ok(Parsed(left, p))
  }

  /** `parse_multiplicative_expr`. */
  function MulAt(c: Ctx, p: nat): (r: Result<Parsed>)
    requires p <= |c.tokens|
    ensures r.Ok? ==> p < r.value.pos <= |c.tokens|
    decreases |c.tokens| - p, 15
  {
    var q := PastSpaces(c.tokens, p);
    var left :- NotAt(c, q);
    MulRest(c, left.node, left.pos)
  }

  function MulRest(c: Ctx, left: Node, p: nat): (r: Result<Parsed>)
    requires p <= |c.tokens|
    ensures r.Ok? ==> p <= r.value.pos <= |c.tokens|
    decreases |c.tokens| - p, 0
  {
    if p < |c.tokens| && IsMultiplicativeOp(c.tokens[p].token) then
      var right :- NotAt(c, PastSpaces(c.tokens, p + 1));
      MulRest(c, BinaryExpr(left, c.tokens[p].token, right.node), right.pos)
    else Ok(Parsed(left, p))
  }

  /** `parse_not_expr`. Its `!` branch calls `parse_exp_expr()` without the `scope`
      argument, which Python rejects with a `TypeError` once `!` is consumed. */
  function NotAt(c: Ctx, p: nat): (r: Result<Parsed>)
    requires p <= |c.tokens|
    ensures r.Ok? ==> p < r.value.pos <= |c.tokens|
    decreases |c.tokens| - p, 14
  {
    var q := PastSpaces(c.tokens, p);
    if At(c.tokens, q, "!") then Err(MissingScope)
    else ExpAt(c, q)
  }

  /** `parse_exp_expr`: `^` takes its right operand by a recursive call, so it
      groups to the right. */
  function ExpAt(c: Ctx, p: nat): (r: Result<Parsed>)
    requires p <= |c.tokens|
    ensures r.Ok? ==> p < r.value.pos <= |c.tokens|
    decreases |c.tokens| - p, 13
  {
    var q := PastSpaces(c.tokens, p);
    var left :- PrimaryAt(c, q, false);
    ExpRest(c, left.node, left.pos)
  }

  function ExpRest(c: Ctx, left: Node, p: nat): (r: Result<Parsed>)
    requires p <= |c.tokens|
    ensures r.Ok? ==> p <= r.value.pos <= |c.tokens|
    decreases |c.tokens| - p, 0
  {
    if At(c.tokens, p, "^") then
      var right :- ExpAt(c, PastSpaces(c.tokens, p + 1));
      ExpRest(c, BinaryExpr(left, "^", right.node), right.pos)
    else Ok(Parsed(left, p))
  }

  /** `parse_primary_expr(scope, is_func_call)`. */
  function PrimaryAt(c: Ctx, p: nat, isFuncCall: bool): (r: Result<Parsed>)
    requires p <= |c.tokens|
    ensures r.Ok? ==> p < r.value.pos <= |c.tokens|
    decreases |c.tokens| - p, 12
  {
    var p0 := PastSpaces(c.tokens, p);
    if p0 == |c.tokens| then Fail(SemanticError, UnexpectedEnd)
    else TokenAt(c, p0, isFuncCall)
  }

  /** The literal a token stands for, if it is an hp, xp, comms, flag or `dead`
      token: `int` and `float` of the lexeme may fail. */
  function LiteralOf(t: Token): (r: Option<Result<Node>>)
    ensures r.Some? <==> t.token in {"hp_ltr", "xp_ltr", "flag_ltr", "dead"} || StartsWith(t.token, "comms_ltr")
  {
    if t.token == "hp_ltr" then Some(MakeHpLiteral(t.lexeme))
    else if t.token == "xp_ltr" then Some(MakeXpLiteral(t.lexeme))
    else if StartsWith(t.token, "comms_ltr") then Some(Ok(CommsLiteral(StripQuotes(t.lexeme))))
    else if t.token == "flag_ltr" then Some(Ok(FlagLiteral(t.lexeme == "true")))
    else if t.token == "dead" then Some(Ok(DeadLiteral(None)))
    else None
  }

  /** The branches of `parse_primary_expr` on the current token at `p`. */
  function TokenAt(c: Ctx, p: nat, isFuncCall: bool): (r: Result<Parsed>)
    requires p < |c.tokens|
    ensures r.Ok? ==> p < r.value.pos <= |c.tokens|
    decreases |c.tokens| - p, 11
  {
    var t := c.tokens[p];
    var q := PastSpaces(c.tokens, p + 1);
    if IsIdToken(t.token) || t.token == "id" then IdTail(c, t.lexeme, q, isFuncCall)
    else if LiteralOf(t).Some? then
      var n :- LiteralOf(t).value;
      Ok(Parsed(n, q))
    else if t.token == "(" then Parenthesised(c, q)
    else if t.token == "-" then Negation(c, q)
    else if t.token == "load" || t.token == "loadNum" then Fail(SemanticError, LoadInExpr)
    else Fail(SemanticError, "6 Unexpected token found during parsing: " + t.token)
  }

  /** After an identifier: a struct field, an array element, a call, an xp format,
      or the identifier itself. `q` is the position after the identifier. */
  function IdTail(c: Ctx, sym: string, q: nat, isFuncCall: bool): (r: Result<Parsed>)
    requires q <= |c.tokens|
    ensures r.Ok? ==> q <= r.value.pos <= |c.tokens|
    decreases |c.tokens| - q, 11
  {
    if At(c.tokens, q, ".") then FieldAccess(c, sym, q)
    else if At(c.tokens, q, "[") then ArrayAccess(c, sym, q)
    else if At(c.tokens, q, "(") then Call(c, sym, q)
    else if At(c.tokens, q, "xp_formatting") then
      var isVar :- LookupIdType(c.scopes, sym, "a variable");
      if !isVar then Fail(SemanticError, "NameError: Variable '" + sym + "' does not exist.")
      else
        var value := StripQuotes(c.tokens[q].lexeme);
        if !IsFormatSpec(value) then Fail(SemanticError, "FormatError: Invalid format specifier '" + value + "'.")
        else Ok(Parsed(XpFormatting(Identifier(sym), FormatDigit(value)), PastSpaces(c.tokens, q + 1)))
    else
      if !LookupIdentifier(c.scopes, sym) then Fail(SemanticError, "NameError: Variable '" + sym + "' does not exist.")
      else
        var info := GetIdentifierInfo(c.scopes, sym).value;
        var allowed := Allowed({"a variable"}, c.funcFlag, {"a parameter", "an array"})
          + (if isFuncCall then {"an array", "a struct instance"} else {});
        if info.idType !in allowed then
          Fail(SemanticError, "20 NameError: Identifier '" + sym + "' is already declared as " + info.idType)
        else Ok(Parsed(Identifier(sym), q))
  }

  /** `.field` after a struct instance (or a parameter, inside a function). */
  function FieldAccess(c: Ctx, sym: string, q: nat): (r: Result<Parsed>)
    requires q < |c.tokens| && c.tokens[q].token == "."
    ensures r.Ok? ==> q < r.value.pos <= |c.tokens|
  {
    if !LookupIdentifier(c.scopes, sym) then Fail(SemanticError, "NameError: Struct instance '" + sym + "' does not exist.")
    else
      var info := GetIdentifierInfo(c.scopes, sym).value;
      if info.idType !in Allowed({"a struct instance"}, c.funcFlag, {"a parameter"}) then
        Fail(SemanticError, "18 NameError: Identifier '" + sym + "' is already declared as " + info.idType)
      else
        var f := PastSpaces(c.tokens, q + 1);
        if f == |c.tokens| then Err(NoneLexeme)
        else if !IsIdToken(c.tokens[f].token) then Fail(SemanticError, ExpectFieldId)
        else Ok(Parsed(StructInstField(Identifier(sym), Identifier(c.tokens[f].lexeme)), PastSpaces(c.tokens, f + 1)))
  }

  /** `[index]...` after an array (or a parameter, inside a function). */
  function ArrayAccess(c: Ctx, sym: string, q: nat): (r: Result<Parsed>)
    requires q < |c.tokens| && c.tokens[q].token == "["
    ensures r.Ok? ==> q < r.value.pos <= |c.tokens|
    decreases |c.tokens| - q, 10
  {
    if !LookupIdentifier(c.scopes, sym) then Fail(SemanticError, "NameError: Array '" + sym + "' does not exist.")
    else
      var info := GetIdentifierInfo(c.scopes, sym).value;
      if info.idType !in Allowed({"an array"}, c.funcFlag, {"a parameter"}) then
        Fail(SemanticError, "19 NameError: Identifier '" + sym + "' is already declared as " + info.idType)
      else
        var dims :- IndexLoop(c, [], q);
        Ok(Parsed(ArrElement(Identifier(sym), dims.nodes), dims.pos))
  }

  /** The `while` loop over `[index]` groups. After `[` the code names
      `self.skip_spaces` without calling it, so no spaces are skipped there. */
  function IndexLoop(c: Ctx, dims: seq<Node>, q: nat): (r: Result<ParsedList>)
    requires q <= |c.tokens|
    ensures r.Ok? ==> q <= r.value.pos <= |c.tokens|
    ensures r.Ok? && At(c.tokens, q, "[") ==> q < r.value.pos
    decreases |c.tokens| - q, 0
  {
    if At(c.tokens, q, "[") then
      if At(c.tokens, q + 1, "]") then Fail(SemanticError, EmptyIndex)
      else
        var d :- ExprAt(c, q + 1);
        var e := PastSpaces(c.tokens, d.pos);
        if !At(c.tokens, e, "]") then Err(ExpectError(CloseDimension))
        else IndexLoop(c, dims + [d.node], PastSpaces(c.tokens, e + 1))
    else Ok(ParsedList(dims, q))
  }

  /** `(args)` after a function name. */
  function Call(c: Ctx, sym: string, q: nat): (r: Result<Parsed>)
    requires q < |c.tokens| && c.tokens[q].token == "("
    ensures r.Ok? ==> q < r.value.pos <= |c.tokens|
    decreases |c.tokens| - q, 10
  {
    var isFunc :- LookupIdType(c.scopes, sym, "a function");
    if !isFunc then Fail(SemanticError, "NameError: Function '" + sym + "' does not exist.")
    else
      var args :- ArgsLoop(c, [], PastSpaces(c.tokens, q + 1));
      Ok(Parsed(FuncCallStmt(Identifier(sym), args.nodes), PastSpaces(c.tokens, Next(c.tokens, args.pos))))
  }

  /** The `while` loop over call arguments: an argument whose next non-space token is
      `,` or `)` is read by `parse_primary_expr(scope, True)`, any other one by
      `parse_expr`. `look_ahead` starts at `current_token_index`, the token after
      the current one. */
  function ArgsLoop(c: Ctx, args: seq<Node>, q: nat): (r: Result<ParsedList>)
    requires q <= |c.tokens|
    ensures r.Ok? ==> q <= r.value.pos <= |c.tokens|
    ensures r.Ok? ==> r.value.pos == |c.tokens| || c.tokens[r.value.pos].token == ")"
    decreases |c.tokens| - q, 22
  {
    if q == |c.tokens| || c.tokens[q].token == ")" then Ok(ParsedList(args, q))
    else
      var a :- ArgAt(c, q);
      ArgsLoop(c, args + [a.node], PastSeparator(c.tokens, a.pos))
  }

  /** Spaces, then an optional `,` and the spaces after it. */
  function PastSeparator(toks: seq<Token>, p: nat): (q: nat)
    requires p <= |toks|
    ensures p <= q <= |toks|
  {
    var e := PastSpaces(toks, p);
    if At(toks, e, ",") then PastSpaces(toks, e + 1) else e
  }

  /** One argument of a call, at a current token that is not `)`. */
  function ArgAt(c: Ctx, q: nat): (r: Result<Parsed>)
    requires q < |c.tokens|
    ensures r.Ok? ==> q < r.value.pos <= |c.tokens|
    decreases |c.tokens| - q, 21
  {
    var la := NextNonSpace(c.tokens, q + 1);
    if la.None? then Err(NoneToken)
    else if la.value.token == "," || la.value.token == ")" then PrimaryAt(c, q, true)
    else ExprAt(c, q)
  }

  /** `( expr )`, optionally followed by an xp format. */
  function Parenthesised(c: Ctx, q: nat): (r: Result<Parsed>)
    requires q <= |c.tokens|
    ensures r.Ok? ==> q < r.value.pos <= |c.tokens|
    decreases |c.tokens| - q, 22
  {
    var v :- ExprAt(c, q);
    if v.node.PyValue? then Err(NoneKind)
    else if v.node.XpFormatting? then Fail(SemanticError, FormatInParens)
    else if !At(c.tokens, v.pos, ")") then Err(ExpectError(CloseParen))
    else
      FormatSuffix(c, v.node, PastSpaces(c.tokens, v.pos + 1))
  }

  /** An optional xp format after a closing parenthesis at `e`. */
  function FormatSuffix(c: Ctx, n: Node, e: nat): (r: Result<Parsed>)
    requires e <= |c.tokens|
    ensures r.Ok? ==> e <= r.value.pos <= |c.tokens|
  {
    if At(c.tokens, e, "xp_formatting") then
      var spec := StripQuotes(c.tokens[e].lexeme);
      if !IsFormatSpec(spec) then Fail(SemanticError, "FormatError: Invalid format specifier '" + spec + "'.")
      else Ok(Parsed(XpFormatting(n, FormatDigit(spec)), PastSpaces(c.tokens, e + 1)))
    else Ok(Parsed(n, e))
  }

  /** `-( expr )` or `-identifier`; after `-` anything else makes the method fall
      off its end and return `None`. */
  function Negation(c: Ctx, q: nat): (r: Result<Parsed>)
    requires q <= |c.tokens|
    ensures r.Ok? ==> q <= r.value.pos <= |c.tokens|
    decreases |c.tokens| - q, 22
  {
    if At(c.tokens, q, "(") then NegParen(c, PastSpaces(c.tokens, q + 1))
    else if q == |c.tokens| then Err(NoneToken)
    else if IsIdToken(c.tokens[q].token) then
      Ok(Parsed(UnaryExpr("-", Identifier(c.tokens[q].lexeme)), PastSpaces(c.tokens, q + 1)))
    else Ok(Parsed(PyValue(Values.Dead), q))
  }

  /** `-( expr )`: the expression and the closing parenthesis. */
  function NegParen(c: Ctx, q: nat): (r: Result<Parsed>)
    requires q <= |c.tokens|
    ensures r.Ok? ==> q < r.value.pos <= |c.tokens|
    decreases |c.tokens| - q, 22
  {
    var e :- ExprAt(c, q);
    if !At(c.tokens, e.pos, ")") then Err(ExpectError(CloseNegParen))
    else Ok(Parsed(UnaryExpr("-", e.node), PastSpaces(c.tokens, e.pos + 1)))
  }

  // ---- the class --------------------------------------------------------------------

  /** `Helper`: the token list, the cursor, the scope stack and `func_flag`. */
  class Helper {
    const tokens: seq<Token>
    var currentTokenIndex: nat
    var currentToken: Option<Token>
    const scopeStack: seq<Scope>
    const funcFlag: bool

    /** The current token is the one before `current_token_index`, or `None` once
        the tokens are used up. */
    ghost predicate Valid()
      reads this
    {
      && currentTokenIndex <= |tokens|
      && (currentToken.Some? ==> 1 <= currentTokenIndex && currentToken.value == tokens[currentTokenIndex - 1])
      && (currentToken.None? ==> currentTokenIndex == |tokens|)
    }

    /** The position of the current token; `|tokens|` stands for `None`. */
    ghost function Pos(): nat
      reads this
      requires Valid()
    {
      if currentToken.Some? then currentTokenIndex - 1 else |tokens|
    }

    ghost function Context(): Ctx {
      Ctx(tokens, scopeStack, funcFlag)
    }

    /** The method returned `r` and left the cursor where `s` says. */
    ghost predicate Yields(r: Result<Node>, s: Result<Parsed>)
      reads this
      requires Valid()
    {
      match s
      case Ok(v) => r == Ok(v.node) && Pos() == v.pos
      case Err(e) => r == Err(e)
    }

    constructor (tokens: seq<Token>, scopeStack: seq<Scope>, funcFlag: bool)
      ensures Valid() && Pos() == 0
      ensures this.tokens == tokens && this.scopeStack == scopeStack && this.funcFlag == funcFlag
    {
      this.tokens := tokens;
      this.scopeStack := scopeStack;
      this.funcFlag := funcFlag;
      currentTokenIndex := 0;
      currentToken := None;
      new;
      currentToken := GetNextToken();
    }

    /** `get_next_token()`: the tokens in order, then `None` for ever. */
    method GetNextToken() returns (t: Option<Token>)
      requires currentTokenIndex <= |tokens|
      modifies this`currentTokenIndex
      ensures old(currentTokenIndex) < |tokens| ==>
        t == Some(tokens[old(currentTokenIndex)]) && currentTokenIndex == old(currentTokenIndex) + 1
      ensures old(currentTokenIndex) == |tokens| ==> t == None && currentTokenIndex == old(currentTokenIndex)
    {
      if currentTokenIndex < |tokens| {
        t := Some(tokens[currentTokenIndex]);
        currentTokenIndex := currentTokenIndex + 1;
      } else {
        t := None;
      }
    }

    /** The statement `self.current_token = self.get_next_token()`. */
    method Consume()
      requires Valid()
      modifies this
      ensures Valid() && Pos() == Next(tokens, old(Pos()))
    {
      currentToken := GetNextToken();
    }

    /** `skip_spaces()`. */
    method SkipSpaces()
      requires Valid()
      modifies this
      ensures Valid() && Pos() == PastSpaces(tokens, old(Pos()))
    {
      while currentToken.Some? && currentToken.value.token == SPACE
        invariant Valid() && old(Pos()) <= Pos()
        invariant PastSpaces(tokens, Pos()) == PastSpaces(tokens, old(Pos()))
        decreases |tokens| - Pos()
      {
        Consume();
      }
    }

    /** `expect(token_type, error_message)`: the cursor moves on whether or not the
        current token is the one expected. */
    method Expect(tokenType: string, message: string) returns (r: Result<()>)
      requires Valid()
      modifies this
      ensures Valid() && Pos() == Next(tokens, old(Pos()))
      ensures r.Ok? <==> At(tokens, old(Pos()), tokenType)
      ensures r.Err? ==> r.exc == ExpectError(message)
    {
      var prev := currentToken;
      Consume();
      if prev.None? || prev.value.token != tokenType {
        return Err(ExpectError(message));
      }
      r := Ok(());
    }

    /** `look_ahead()`: the first non-space token from `current_token_index` on, the
        cursor unmoved. */
    method LookAhead() returns (t: Option<Token>)
      requires currentTokenIndex <= |tokens|
      ensures t == NextNonSpace(tokens, currentTokenIndex)
    {
      var i := currentTokenIndex;
      while i < |tokens|
        invariant currentTokenIndex <= i <= |tokens|
        invariant NextNonSpace(tokens, i) == NextNonSpace(tokens, currentTokenIndex)
        decreases |tokens| - i
      {
        if tokens[i].token != SPACE {
          return Some(tokens[i]);
        }
        i := i + 1;
      }
      t := None;
    }

    /** `parse_expr`. */
    method ParseExpr() returns (r: Result<Node>)
      requires Valid()
      modifies this
      ensures Valid() && Yields(r, ExprAt(Context(), old(Pos())))
      decreases |tokens| - Pos(), 20
    {
      SkipSpaces();
      var e := ParseOr();
      if e.Err? {
        return e;
      }
      if currentToken.Some? && currentToken.value.token != ")" {
        return Fail(SemanticError, "Unexpected token found during parsing: " + currentToken.value.token);
      }
      r := e;
    }

    /** `parse_or_expr`. */
    method ParseOr() returns (r: Result<Node>)
      requires Valid()
      modifies this
      ensures Valid() && Yields(r, OrAt(Context(), old(Pos())))
      decreases |tokens| - Pos(), 19
    {
      SkipSpaces();
      var left := ParseAnd();
      if left.Err? {
        return left;
      }
      var l := left.value;
      while currentToken.Some? && IsOrOp(currentToken.value.token)
        invariant Valid() && old(Pos()) <= Pos()
        invariant OrRest(Context(), l, Pos()) == OrAt(Context(), old(Pos()))
        decreases |tokens| - Pos()
      {
        var op := currentToken.value.token;
        Consume();
        SkipSpaces();
        var right := ParseAnd();
        if right.Err? {
          return right;
        }
        l := BinaryExpr(l, op, right.value);
      }
      r := Ok(l);
    }

    /** `parse_and_expr`. */
    method ParseAnd() returns (r: Result<Node>)
      requires Valid()
      modifies this
      ensures Valid() && Yields(r, AndAt(Context(), old(Pos())))
      decreases |tokens| - Pos(), 18
    {
      SkipSpaces();
      var left := ParseRelat();
      if left.Err? {
        return left;
      }
      var l := left.value;
      while currentToken.Some? && IsAndOp(currentToken.value.token)
        invariant Valid() && old(Pos()) <= Pos()
        invariant AndRest(Context(), l, Pos()) == AndAt(Context(), old(Pos()))
        decreases |tokens| - Pos()
      {
        var op := currentToken.value.token;
        Consume();
        SkipSpaces();
        var right := ParseRelat();
        if right.Err? {
          return right;
        }
        l := BinaryExpr(l, op, right.value);
      }
      r := Ok(l);
    }

    /** `parse_relat_expr`. */
    method ParseRelat() returns (r: Result<Node>)
      requires Valid()
      modifies this
      ensures Valid() && Yields(r, RelatAt(Context(), old(Pos())))
      decreases |tokens| - Pos(), 17
    {
      SkipSpaces();
      var left := ParseAdditive();
      if left.Err? {
        return left;
      }
      if !(currentToken.Some? && IsRelationalOp(currentToken.value.token)) {
        return left;
      }
      ghost var start := Pos();
      var expr: seq<Node> := [];
      var l := left.value;
      while currentToken.Some? && IsRelationalOp(currentToken.value.token)
        invariant Valid() && start <= Pos()
        invariant RelatRest(Context(), l, expr, Pos()) == RelatRest(Context(), left.value, [], start)
        decreases |tokens| - Pos()
      {
        var op := currentToken.value.token;
        Consume();
        SkipSpaces();
        var right := ParseAdditive();
        if right.Err? {
          return right;
        }
        expr := expr + [BinaryExpr(l, op, right.value)];
        l := right.value;
      }
      r := Ok(ChainRelatExpr(expr));
    }

    /** `parse_additive_expr`. */
    method ParseAdditive() returns (r: Result<Node>)
      requires Valid()
      modifies this
      ensures Valid() && Yields(r, AddAt(Context(), old(Pos())))
      decreases |tokens| - Pos(), 16
    {
      SkipSpaces();
      var left := ParseMultiplicative();
      if left.Err? {
        return left;
      }
      var l := left.value;
      while currentToken.Some? && IsAdditiveOp(currentToken.value.token)
        invariant Valid() && old(Pos()) <= Pos()
        invariant AddRest(Context(), l, Pos()) == AddAt(Context(), old(Pos()))
        decreases |tokens| - Pos()
      {
        var op := currentToken.value.token;
        Consume();
        SkipSpaces();
        var right := ParseMultiplicative();
        if right.Err? {
          return right;
        }
        l := BinaryExpr(l, op, right.value);
      }
      r := Ok(l);
    }

    /** `parse_multiplicative_expr`. */
    method ParseMultiplicative() returns (r: Result<Node>)
      requires Valid()
      modifies this
      ensures Valid() && Yields(r, MulAt(Context(), old(Pos())))
      decreases |tokens| - Pos(), 15
    {
      SkipSpaces();
      var left := ParseNot();
      if left.Err? {
        return left;
      }
      var l := left.value;
      while currentToken.Some? && IsMultiplicativeOp(currentToken.value.token)
        invariant Valid() && old(Pos()) <= Pos()
        invariant MulRest(Context(), l, Pos()) == MulAt(Context(), old(Pos()))
        decreases |tokens| - Pos()
      {
        var op := currentToken.value.token;
        Consume();
        SkipSpaces();
        var right := ParseNot();
        if right.Err? {
          return right;
        }
        l := BinaryExpr(l, op, right.value);
      }
      r := Ok(l);
    }

    /** `parse_not_expr`: after `!` the call without `scope` fails. */
    method ParseNot() returns (r: Result<Node>)
      requires Valid()
      modifies this
      ensures Valid() && Yields(r, NotAt(Context(), old(Pos())))
      decreases |tokens| - Pos(), 14
    {
      SkipSpaces();
      if currentToken.Some? && currentToken.value.token == "!" {
        Consume();
        SkipSpaces();
        return Err(MissingScope);
      }
      r := ParseExp();
    }

    /** `parse_exp_expr`. */
    method ParseExp() returns (r: Result<Node>)
      requires Valid()
      modifies this
      ensures Valid() && Yields(r, ExpAt(Context(), old(Pos())))
      decreases |tokens| - Pos(), 13
    {
      SkipSpaces();
      var left := ParsePrimary(false);
      if left.Err? {
        return left;
      }
      var l := left.value;
      while currentToken.Some? && currentToken.value.token == "^"
        invariant Valid() && old(Pos()) < Pos()
        invariant ExpRest(Context(), l, Pos()) == ExpAt(Context(), old(Pos()))
        decreases |tokens| - Pos()
      {
        Consume();
        SkipSpaces();
        var right := ParseExp();
        if right.Err? {
          return right;
        }
        l := BinaryExpr(l, "^", right.value);
      }
      r := Ok(l);
    }

    /** `parse_primary_expr(scope, is_func_call)`: literals, `dead`, a parenthesised
        or negated expression, or an identifier and what follows it. */
    method ParsePrimary(isFuncCall: bool) returns (r: Result<Node>)
      requires Valid()
      modifies this
      ensures Valid() && Yields(r, PrimaryAt(Context(), old(Pos()), isFuncCall))
      decreases |tokens| - Pos(), 12
    {
      SkipSpaces();
      if currentToken.None? {
        return Fail(SemanticError, UnexpectedEnd);
      }
      r := ParseToken(isFuncCall);
    }

    /** The branches of `parse_primary_expr` on the current token. */
    method ParseToken(isFuncCall: bool) returns (r: Result<Node>)
      requires Valid() && currentToken.Some?
      modifies this
      ensures Valid() && Yields(r, TokenAt(Context(), old(Pos()), isFuncCall))
      decreases |tokens| - Pos(), 11
    {
      var t := currentToken.value;
      if t.token == "load" || t.token == "loadNum" {
        return Fail(SemanticError, LoadInExpr);
      }
      var literal := LiteralOf(t);
      if !(IsIdToken(t.token) || t.token == "id" || literal.Some? || t.token == "(" || t.token == "-") {
        return Fail(SemanticError, "6 Unexpected token found during parsing: " + t.token);
      }
      // Every remaining branch consumes the token and the spaces after it first (a
      // literal that does not convert raises before that, which leaves no trace).
      ghost var p0 := Pos();
      Consume();
      SkipSpaces();
      assert Pos() == PastSpaces(tokens, p0 + 1);
      if IsIdToken(t.token) || t.token == "id" {
        r := ParseIdTail(t.lexeme, isFuncCall);
      } else if literal.Some? {
        r := literal.value;
      } else if t.token == "(" {
        r := ParseParenthesised();
      } else {
        r := ParseNegation();
      }
    }

    /** The identifier branch of `parse_primary_expr`, after the identifier. */
    method ParseIdTail(sym: string, isFuncCall: bool) returns (r: Result<Node>)
      requires Valid()
      modifies this
      ensures Valid() && Yields(r, IdTail(Context(), sym, old(Pos()), isFuncCall))
      decreases |tokens| - Pos(), 11
    {
      if currentToken.Some? && currentToken.value.token == "." {
        r := ParseFieldAccess(sym);
      } else if currentToken.Some? && currentToken.value.token == "[" {
        r := ParseArrayAccess(sym);
      } else if currentToken.Some? && currentToken.value.token == "(" {
        r := ParseCall(sym);
      } else if currentToken.Some? && currentToken.value.token == "xp_formatting" {
        var isVar := LookupIdType(scopeStack, sym, "a variable");
        if isVar.Err? {
          return Err(isVar.exc);
        }
        if !isVar.value {
          return Fail(SemanticError, "NameError: Variable '" + sym + "' does not exist.");
        }
        var value := StripQuotes(currentToken.value.lexeme);
        if !IsFormatSpec(value) {
          return Fail(SemanticError, "FormatError: Invalid format specifier '" + value + "'.");
        }
        var digit := FormatDigit(value);
        Consume();
        SkipSpaces();
        r := Ok(XpFormatting(Identifier(sym), digit));
      } else {
        if !LookupIdentifier(scopeStack, sym) {
          return Fail(SemanticError, "NameError: Variable '" + sym + "' does not exist.");
        }
        var info := GetIdentifierInfo(scopeStack, sym).value;
        var allowed := Allowed({"a variable"}, funcFlag, {"a parameter", "an array"});
        if isFuncCall {
          allowed := allowed + {"an array", "a struct instance"};
        }
        if info.idType !in allowed {
          return Fail(SemanticError, "20 NameError: Identifier '" + sym + "' is already declared as " + info.idType);
        }
        r := Ok(Identifier(sym));
      }
    }

    /** `.field` after an identifier. */
    method ParseFieldAccess(sym: string) returns (r: Result<Node>)
      requires Valid() && currentToken.Some? && currentToken.value.token == "."
      modifies this
      ensures Valid() && Yields(r, FieldAccess(Context(), sym, old(Pos())))
    {
      if !LookupIdentifier(scopeStack, sym) {
        return Fail(SemanticError, "NameError: Struct instance '" + sym + "' does not exist.");
      }
      var info := GetIdentifierInfo(scopeStack, sym).value;
      if info.idType !in Allowed({"a struct instance"}, funcFlag, {"a parameter"}) {
        return Fail(SemanticError, "18 NameError: Identifier '" + sym + "' is already declared as " + info.idType);
      }
      Consume();
      SkipSpaces();
      if currentToken.Some? && !IsIdToken(currentToken.value.token) {
        return Fail(SemanticError, ExpectFieldId);
      }
      if currentToken.None? {
        return Err(NoneLexeme);
      }
      var field := Identifier(currentToken.value.lexeme);
      Consume();
      SkipSpaces();
      r := Ok(StructInstField(Identifier(sym), field));
    }

    /** `[index]...` after an identifier. */
    method ParseArrayAccess(sym: string) returns (r: Result<Node>)
      requires Valid() && currentToken.Some? && currentToken.value.token == "["
      modifies this
      ensures Valid() && Yields(r, ArrayAccess(Context(), sym, old(Pos())))
      decreases |tokens| - Pos(), 10
    {
      if !LookupIdentifier(scopeStack, sym) {
        return Fail(SemanticError, "NameError: Array '" + sym + "' does not exist.");
      }
      var info := GetIdentifierInfo(scopeStack, sym).value;
      if info.idType !in Allowed({"an array"}, funcFlag, {"a parameter"}) {
        return Fail(SemanticError, "19 NameError: Identifier '" + sym + "' is already declared as " + info.idType);
      }
      // The first pass of the source's `while` loop: `parse_expr` stops only before
      // `)` or at the end, so the `expect` that follows it always raises and the
      // loop never comes round again (lemma IndexedAccessFails).
      Consume();
      if currentToken.Some? && currentToken.value.token == "]" {
        return Fail(SemanticError, EmptyIndex);
      }
      var dim := ParseExpr();
      if dim.Err? {
        return dim;
      }
      SkipSpaces();
      var closed := Expect("]", CloseDimension);
      r := Err(closed.exc);
    }

    /** `(args)` after an identifier. */
    method ParseCall(sym: string) returns (r: Result<Node>)
      requires Valid() && currentToken.Some? && currentToken.value.token == "("
      modifies this
      ensures Valid() && Yields(r, Call(Context(), sym, old(Pos())))
      decreases |tokens| - Pos(), 10
    {
      var isFunc := LookupIdType(scopeStack, sym, "a function");
      if isFunc.Err? {
        return Err(isFunc.exc);
      }
      if !isFunc.value {
        return Fail(SemanticError, "NameError: Function '" + sym + "' does not exist.");
      }
      Consume();
      SkipSpaces();
      var args := ParseArguments();
      if args.Err? {
        return Err(args.exc);
      }
      Consume();
      SkipSpaces();
      r := Ok(FuncCallStmt(Identifier(sym), args.value));
    }

    /** The argument loop of a call, up to the closing parenthesis. */
    method ParseArguments() returns (r: Result<seq<Node>>)
      requires Valid()
      modifies this
      ensures Valid()
      ensures match ArgsLoop(Context(), [], old(Pos()))
        case Ok(v) => r == Ok(v.nodes) && Pos() == v.pos
        case Err(e) => r == Err(e)
      decreases |tokens| - Pos(), 23
    {
      var args: seq<Node> := [];
      while currentToken.Some? && currentToken.value.token != ")"
        invariant Valid() && old(Pos()) <= Pos()
        invariant ArgsLoop(Context(), args, Pos()) == ArgsLoop(Context(), [], old(Pos()))
        decreases |tokens| - Pos()
      {
        ghost var p0, args0 := Pos(), args;
        assert p0 < |tokens| && tokens[p0].token != ")";
        var arg := ParseArgument();
        if arg.Err? {
          return Err(arg.exc);
        }
        ghost var a := Parsed(arg.value, Pos());
        assert ArgAt(Context(), p0) == Ok(a);
        args := args + [arg.value];
        SkipSeparator();
        assert ArgsLoop(Context(), args0, p0) == ArgsLoop(Context(), args, Pos());
      }
      r := Ok(args);
    }

    /** Spaces and an optional `,` between two arguments. */
    method SkipSeparator()
      requires Valid()
      modifies this
      ensures Valid() && Pos() == PastSeparator(tokens, old(Pos()))
    {
      SkipSpaces();
      if currentToken.Some? && currentToken.value.token == "," {
        Consume();
        SkipSpaces();
      }
    }

    /** One argument of a call: `look_ahead()` decides between
        `parse_primary_expr(scope, True)` and `parse_expr`. */
    method ParseArgument() returns (r: Result<Node>)
      requires Valid() && currentToken.Some?
      modifies this
      ensures Valid() && Yields(r, ArgAt(Context(), old(Pos())))
      decreases |tokens| - Pos(), 21
    {
      var la := LookAhead();
      if la.None? {
        return Err(NoneToken);
      }
      if la.value.token == "," || la.value.token == ")" {
        r := ParsePrimary(true);
      } else {
        r := ParseExpr();
      }
    }

    /** `( expr )`, after the opening parenthesis. */
    method ParseParenthesised() returns (r: Result<Node>)
      requires Valid()
      modifies this
      ensures Valid() && Yields(r, Parenthesised(Context(), old(Pos())))
      decreases |tokens| - Pos(), 22
    {
      var value := ParseExpr();
      if value.Err? {
        return value;
      }
      if value.value.PyValue? {
        return Err(NoneKind);
      }
      if value.value.XpFormatting? {
        return Fail(SemanticError, FormatInParens);
      }
      var closed := Expect(")", CloseParen);
      if closed.Err? {
        return Err(closed.exc);
      }
      SkipSpaces();
      r := ParseFormatSuffix(value.value);
    }

    /** The optional xp format after `( expr )`. */
    method ParseFormatSuffix(n: Node) returns (r: Result<Node>)
      requires Valid()
      modifies this
      ensures Valid() && Yields(r, FormatSuffix(Context(), n, old(Pos())))
    {
      if currentToken.Some? && currentToken.value.token == "xp_formatting" {
        var spec := StripQuotes(currentToken.value.lexeme);
        if !IsFormatSpec(spec) {
          return Fail(SemanticError, "FormatError: Invalid format specifier '" + spec + "'.");
        }
        var digit := FormatDigit(spec);
        Consume();
        SkipSpaces();
        return Ok(XpFormatting(n, digit));
      }
      r := Ok(n);
    }

    /** `-( expr )` or `-identifier`, after the minus sign. */
    method ParseNegation() returns (r: Result<Node>)
      requires Valid()
      modifies this
      ensures Valid() && Yields(r, Negation(Context(), old(Pos())))
      decreases |tokens| - Pos(), 22
    {
      if currentToken.Some? && currentToken.value.token == "(" {
        Consume();
        SkipSpaces();
        r := ParseNegParen();
        return;
      }
      if currentToken.None? {
        return Err(NoneToken);
      }
      if IsIdToken(currentToken.value.token) {
        var identifier := Identifier(currentToken.value.lexeme);
        Consume();
        SkipSpaces();
        return Ok(UnaryExpr("-", identifier));
      }
      r := Ok(PyValue(Values.Dead));
    }

    /** `-( expr )`, after the opening parenthesis and the spaces after it. */
    method ParseNegParen() returns (r: Result<Node>)
      requires Valid()
      modifies this
      ensures Valid() && Yields(r, NegParen(Context(), old(Pos())))
      decreases |tokens| - Pos(), 22
    {
      var e := ParseExpr();
      if e.Err? {
        return e;
      }
      var closed := Expect(")", CloseNegParen);
      if closed.Err? {
        return Err(closed.exc);
      }
      SkipSpaces();
      r := Ok(UnaryExpr("-", e.value));
    }
  }
}
