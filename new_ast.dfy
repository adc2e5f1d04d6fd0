/** The second statement parser of the Ludus front end (ludus/new_ast.py): `play`
    blocks holding variable initialisations `name: expr`, over additive and
    multiplicative expressions, with `var_list`, the names initialised so far,
    deciding between a declaration and an assignment.

    As in module `HelperParser`, the first half states what each method computes as
    a function of the tokens and the position of the current token (`|tokens|` for
    `None`); the class `Semantic` is the Python class, whose methods move the cursor
    and are proved to compute exactly these functions. Every `raise Exception(...)`
    is an `Err` of kind `PlainException`; a Python fault on a `None` token is the
    `AttributeError` it raises. */
module NewAst {
  import opened Results
  import opened Nodes
  import Lexer
  import H = HelperParser

  type Token = Lexer.Token
  type Parsed = H.Parsed

  const SPACE: string := "space"
  const NEWLINE: string := "newline"

  const UnexpectedEnd: string := "Unexpected end of input during parsing!"
  const Unexpected: string := "Unexpected token found during parsing: "
  const ExpectPlay: string := "Expected function declaration keyword 'play'."
  const CloseBody: string := "Expected '}' to close function body."
  const CloseParen: string := "Unexpected token found inside parenthesised expression. Expected closing parenthesis."

  /** `expect(t, msg)`: the exception raised when the current token is not `t`. */
  function ExpectFailure(msg: string): Exc {
    Exc(PlainException, "Parser Error: " + msg)
  }

  // ---- the token stream ------------------------------------------------------------

  predicate IsWhitespace(t: Token) { t.token == NEWLINE || t.token == SPACE }

  /** `skip_whitespace()`: the first position from `p` on whose token is neither a
      newline nor a space. */
  function PastWhitespace(toks: seq<Token>, p: nat): (q: nat)
    requires p <= |toks|
    ensures p <= q <= |toks|
    ensures q < |toks| ==> !IsWhitespace(toks[q])
    decreases |toks| - p
  {
    if p < |toks| && IsWhitespace(toks[p]) then PastWhitespace(toks, p + 1) else p
  }

  /** `token in ["/", "*", "%"]`: membership in a list, unlike the additive test. */
  predicate IsMultiplicativeOp(t: string) {
    t == "/" || t == "*" || t == "%"
  }

  /** The literal node a token stands for, if it is an hp, nhp, xp, nxp, comms or
      flag token; `int` and `float` of the lexeme may fail. */
  function Literal(t: Token): (r: Option<Result<Node>>)
    ensures r.Some? <==> t.token in {"hp_ltr", "nhp_ltr", "xp_ltr", "nxp_ltr", "comms_ltr", "flag_ltr"}
  {
    if t.token == "hp_ltr" || t.token == "nhp_ltr" then Some(MakeHpLiteral(t.lexeme))
    else if t.token == "xp_ltr" || t.token == "nxp_ltr" then Some(MakeXpLiteral(t.lexeme))
    else if t.token == "comms_ltr" then Some(Ok(CommsLiteral(H.StripQuotes(t.lexeme))))
    else if t.token == "flag_ltr" then Some(Ok(FlagLiteral(t.lexeme == "true")))
    else None
  }

  // ---- the expression methods as functions -----------------------------------------
  //
  // Each takes the position of the current token and gives the node with the
  // position afterwards. Every expression consumes at least one token, and calls at
  // the same position go to a lower level.

  /** `parse_expr`. */
  function ExprAt(toks: seq<Token>, p: nat): (r: Result<Parsed>)
    requires p <= |toks|
    ensures r.Ok? ==> p < r.value.pos <= |toks|
    decreases |toks| - p, 4
  {
    AddAt(toks, H.PastSpaces(toks, p))
  }

  /** `parse_additive_expr`. */
  function AddAt(toks: seq<Token>, p: nat): (r: Result<Parsed>)
    requires p <= |toks|
    ensures r.Ok? ==> p < r.value.pos <= |toks|
    decreases |toks| - p, 3
  {
    var left :- MulAt(toks, H.PastSpaces(toks, p));
    AddRest(toks, left.node, left.pos)
  }

  /** The `while` loop of `parse_additive_expr`, from a left operand. */
  function AddRest(toks: seq<Token>, left: Node, p: nat): (r: Result<Parsed>)
    requires p <= |toks|
    ensures r.Ok? ==> p <= r.value.pos <= |toks|
    decreases |toks| - p, 0
  {
    if p < |toks| && H.IsAdditiveOp(toks[p].token) then
      var right :- MulAt(toks, H.PastSpaces(toks, p + 1));
      AddRest(toks, BinaryExpr(left, toks[p].token, right.node), right.pos)
    else Ok(H.Parsed(left, p))
  }

  /** `parse_multiplicative_expr`. */
  function MulAt(toks: seq<Token>, p: nat): (r: Result<Parsed>)
    requires p <= |toks|
    ensures r.Ok? ==> p < r.value.pos <= |toks|
    decreases |toks| - p, 2
  {
    var left :- PrimaryAt(toks, H.PastSpaces(toks, p));
    MulRest(toks, left.node, left.pos)
  }

  function MulRest(toks: seq<Token>, left: Node, p: nat): (r: Result<Parsed>)
    requires p <= |toks|
    ensures r.Ok? ==> p <= r.value.pos <= |toks|
    decreases |toks| - p, 0
  {
    if p < |toks| && IsMultiplicativeOp(toks[p].token) then
      var right :- PrimaryAt(toks, H.PastSpaces(toks, p + 1));
      MulRest(toks, BinaryExpr(left, toks[p].token, right.node), right.pos)
    else Ok(H.Parsed(left, p))
  }

  /** `parse_primary_expr`. */
  function PrimaryAt(toks: seq<Token>, p: nat): (r: Result<Parsed>)
    requires p <= |toks|
    ensures r.Ok? ==> p < r.value.pos <= |toks|
    decreases |toks| - p, 1
  {
    var q := H.PastSpaces(toks, p);
    if q == |toks| then Fail(PlainException, UnexpectedEnd)
    else TokenAt(toks, q)
  }

  /** The branches of `parse_primary_expr` on the current token at `q`: an
      identifier, a literal, or a parenthesised expression. */
  function TokenAt(toks: seq<Token>, q: nat): (r: Result<Parsed>)
    requires q < |toks|
    ensures r.Ok? ==> q < r.value.pos <= |toks|
    decreases |toks| - q, 0
  {
    var t := toks[q];
    var next := H.PastSpaces(toks, q + 1);
    if H.IsIdToken(t.token) || t.token == "id" then Ok(H.Parsed(Identifier(t.lexeme), next))
    else if Literal(t).Some? then
      var n :- Literal(t).value;
      Ok(H.Parsed(n, next))
    else if t.token == "(" then
      var v :- ExprAt(toks, next);
      if !H.At(toks, v.pos, ")") then Err(ExpectFailure(CloseParen))
      else Ok(H.Parsed(v.node, H.PastSpaces(toks, v.pos + 1)))
    else Fail(PlainException, Unexpected + t.token)
  }

  // ---- statements, play blocks and the program -------------------------------------

  /** A parsed statement (or play block), `var_list` afterwards, and the position
      of the current token afterwards. */
  datatype Stmt = Stmt(node: Node, vars: seq<string>, pos: nat)

  /** A list of statements (or play blocks), `var_list` and the position afterwards. */
  datatype Block = Block(stmts: seq<Node>, vars: seq<string>, pos: nat)

  /** The names recorded after a run of initialisations: each declaration adds its
      name at the end. */
  function Recorded(vars: seq<string>, stmts: seq<Node>): seq<string>
    decreases |stmts|
  {
    if stmts == [] then vars
    else if stmts[0].VarDec? && stmts[0].name.Identifier? then Recorded(vars + [stmts[0].name.symbol], stmts[1..])
    else Recorded(vars, stmts[1..])
  }

  /** Each statement declares a name not recorded before it, or assigns (with `:`)
      to a name that is. */
  predicate InitsOk(vars: seq<string>, stmts: seq<Node>)
    decreases |stmts|
  {
    if stmts == [] then true
    else
      var s := stmts[0];
      if s.VarDec? then
        s.name.Identifier? && s.name.symbol !in vars && InitsOk(vars + [s.name.symbol], stmts[1..])
      else
        s.VarAssignment? && s.left.Identifier? && s.operator == ":" && s.left.symbol in vars
        && InitsOk(vars, stmts[1..])
  }

  /** A statement's shape: an identifier whose next non-space token is `:` or `,`. */
  predicate StartsInit(toks: seq<Token>, q: nat) {
    && q < |toks| && H.IsIdToken(toks[q].token)
    && var la := H.NextNonSpace(toks, q + 1);
       la.Some? && (la.value.token == ":" || la.value.token == ",")
  }

  /** `parse_stmt(scope)`: only a variable initialisation is a statement. */
  function StmtAt(toks: seq<Token>, vars: seq<string>, p: nat): (r: Result<Stmt>)
    requires p <= |toks|
    ensures r.Ok? ==> p < r.value.pos <= |toks|
    ensures r.Ok? ==> StartsInit(toks, PastWhitespace(toks, p))
    ensures r.Ok? ==> InitsOk(vars, [r.value.node]) && r.value.vars == Recorded(vars, [r.value.node])
  {
    var q := PastWhitespace(toks, p);
    if StartsInit(toks, q) then VarInitAt(toks, vars, q)
    else if q == |toks| then Err(H.NoneToken)
    else if !H.IsIdToken(toks[q].token) then Fail(PlainException, Unexpected + toks[q].token)
    else
      var la := H.NextNonSpace(toks, q + 1);
      if la.None? then Err(H.NoneToken) else Fail(PlainException, Unexpected + la.value.token)
  }

  /** `parse_var_init(scope)`: the name, whatever token follows it (the `:` or `,`
      that `parse_stmt` saw), the value; a declaration the first time the name is
      initialised and an assignment with `:` afterwards. */
  function VarInitAt(toks: seq<Token>, vars: seq<string>, p: nat): (r: Result<Stmt>)
    requires p <= |toks|
    ensures r.Ok? ==> p < r.value.pos <= |toks|
    ensures r.Ok? ==> InitsOk(vars, [r.value.node]) && r.value.vars == Recorded(vars, [r.value.node])
  {
    var q := PastWhitespace(toks, p);
    if q == |toks| then Err(H.NoneLexeme)
    else
      var v :- ExprAt(toks, ValueStart(toks, q));
      Ok(Initialised(vars, toks[q].lexeme, v.node, PastWhitespace(toks, v.pos)))
  }

  /** Where the value of an initialisation starts: after the name, the token after
      it (eaten unread) and the spaces and newlines around that token. */
  function ValueStart(toks: seq<Token>, q: nat): (v: nat)
    requires q < |toks|
    ensures q < v <= |toks|
  {
    PastWhitespace(toks, H.Next(toks, PastWhitespace(toks, q + 1)))
  }

  /** The end of `parse_var_init`: an assignment with `:` to a name in `var_list`,
      otherwise a declaration that records the name. */
  function Initialised(vars: seq<string>, name: string, value: Node, e: nat): (s: Stmt)
    ensures s.pos == e
    ensures InitsOk(vars, [s.node]) && s.vars == Recorded(vars, [s.node])
  {
    if name in vars then
      var n := VarAssignment(Identifier(name), ":", value);
      assert [n][1..] == [];
      Stmt(n, vars, e)
    else
      var n := VarDec(Identifier(name), value);
      assert [n][1..] == [];
      Stmt(n, vars + [name], e)
  }

  /** The `while` loop of `parse_func` over the statements of a body. */
  function BodyLoop(toks: seq<Token>, vars: seq<string>, acc: seq<Node>, p: nat): (r: Result<Block>)
    requires p <= |toks|
    ensures r.Ok? ==> p <= r.value.pos <= |toks|
    ensures r.Ok? ==> r.value.pos == |toks| || toks[r.value.pos].token == "}"
    decreases |toks| - p
  {
    if p < |toks| && toks[p].token != "}" then
      var s :- StmtAt(toks, vars, p);
      BodyLoop(toks, s.vars, acc + [s.node], PastWhitespace(toks, s.pos))
    else Ok(Block(acc, vars, p))
  }

  /** The position of the first body token: `play`, `(`, `)` and `{` are eaten
      without being looked at, with spaces and newlines skipped around `)`. */
  function BodyStart(toks: seq<Token>, q: nat): (b: nat)
    requires q < |toks|
    ensures q < b <= |toks|
  {
    H.Next(toks, PastWhitespace(toks, H.Next(toks, PastWhitespace(toks, H.Next(toks, q + 1)))))
  }

  /** `parse_func()`: a `play` block, its statements and the closing `}`. */
  function FuncAt(toks: seq<Token>, vars: seq<string>, p: nat): (r: Result<Stmt>)
    requires p <= |toks|
    ensures r.Ok? ==> p < r.value.pos <= |toks|
  {
    var q := PastWhitespace(toks, p);
    if !H.At(toks, q, "play") then Fail(PlainException, ExpectPlay)
    else
      var body :- BodyLoop(toks, vars, [], BodyStart(toks, q));
      if !H.At(toks, body.pos, "}") then Err(ExpectFailure(CloseBody))
      else Ok(Stmt(PlayFunc(BlockStmt(body.stmts)), body.vars, body.pos + 1))
  }

  /** The `while` loop of `produce_ast`: play blocks until `gameOver` or the end;
      the token after each block's `}` is skipped unread. */
  function ProgramLoop(toks: seq<Token>, vars: seq<string>, acc: seq<Node>, p: nat): (r: Result<Block>)
    requires p <= |toks|
    ensures r.Ok? ==> p <= r.value.pos <= |toks|
    decreases |toks| - p
  {
    if p < |toks| && toks[p].token != "gameOver" then
      var q := PastWhitespace(toks, p);
      if H.At(toks, q, "play") then
        var f :- FuncAt(toks, vars, q);
        ProgramLoop(toks, f.vars, acc + [f.node], H.Next(toks, f.pos))
      else if q == |toks| then Err(H.NoneToken)
      else Fail(PlainException, Unexpected + toks[q].token)
    else Ok(Block(acc, vars, p))
  }

  /** `produce_ast()` from a cursor at `p` and a `var_list`: the program, or the
      exception that ended parsing, returned as a value. */
  function ProduceFrom(toks: seq<Token>, vars: seq<string>, p: nat): (r: Result<Node>)
    requires p <= |toks|
  {
    var b :- ProgramLoop(toks, vars, [], p);
    Ok(Program(b.stmts))
  }

  /** `Semantic(tokens).produce_ast()`. */
  function ProduceAst(toks: seq<Token>): Result<Node> {
    ProduceFrom(toks, [], 0)
  }

  // ---- the class --------------------------------------------------------------------

  /** `Semantic`: the token list, the cursor and `var_list`. */
  class Semantic {
    const tokens: seq<Token>
    var currentTokenIndex: nat
    var currentToken: Option<Token>
    var varList: seq<string>

    /** The current token is the one before `current_token_index`, or `None` once
        the tokens are used up. */
    ghost predicate Valid()
      reads this
    {
      && currentTokenIndex <= |tokens|
      && (currentToken.Some? ==> 1 <= currentTokenIndex && currentToken.value == tokens[currentTokenIndex - 1])
      && (currentToken.None? ==> currentTokenIndex == |tokens|)
    }

    /** The position of the current token; `|tokens|` stands for `None`. */
    ghost function Pos(): nat
      reads this
      requires Valid()
    {
      if currentToken.Some? then currentTokenIndex - 1 else |tokens|
    }

    /** An expression method returned `r` and left the cursor where `s` says. */
    ghost predicate Yields(r: Result<Node>, s: Result<Parsed>)
      reads this
      requires Valid()
    {
      match s
      case Ok(v) => r == Ok(v.node) && Pos() == v.pos
      case Err(e) => r == Err(e)
    }

    /** A statement method returned `r` and left the cursor and `var_list` where
        `s` says. */
    ghost predicate YieldsStmt(r: Result<Node>, s: Result<Stmt>)
      reads this
      requires Valid()
    {
      match s
      case Ok(v) => r == Ok(v.node) && Pos() == v.pos && varList == v.vars
      case Err(e) => r == Err(e)
    }

    constructor (tokens: seq<Token>)
      ensures Valid() && Pos() == 0 && varList == []
      ensures this.tokens == tokens
    {
      this.tokens := tokens;
      currentTokenIndex := 0;
      currentToken := None;
      varList := [];
      new;
      currentToken := GetNextToken();
    }

    /** `get_next_token()`: the tokens in order, then `None` for ever. */
    method GetNextToken() returns (t: Option<Token>)
      requires currentTokenIndex <= |tokens|
      modifies this`currentTokenIndex
      ensures old(currentTokenIndex) < |tokens| ==>
        t == Some(tokens[old(currentTokenIndex)]) && currentTokenIndex == old(currentTokenIndex) + 1
      ensures old(currentTokenIndex) == |tokens| ==> t == None && currentTokenIndex == old(currentTokenIndex)
    {
      if currentTokenIndex < |tokens| {
        t := Some(tokens[currentTokenIndex]);
        currentTokenIndex := currentTokenIndex + 1;
      } else {
        t := None;
      }
    }

    /** The statement `self.current_token = self.get_next_token()`. */
    method Consume()
      requires Valid()
      modifies this`currentTokenIndex, this`currentToken
      ensures Valid() && Pos() == H.Next(tokens, old(Pos()))
    {
      currentToken := GetNextToken();
    }

    /** `skip_whitespace()`. */
    method SkipWhitespace()
      requires Valid()
      modifies this`currentTokenIndex, this`currentToken
      ensures Valid() && Pos() == PastWhitespace(tokens, old(Pos()))
    {
      while currentToken.Some? && (currentToken.value.token == NEWLINE || currentToken.value.token == SPACE)
        invariant Valid() && old(Pos()) <= Pos()
        invariant PastWhitespace(tokens, Pos()) == PastWhitespace(tokens, old(Pos()))
        decreases |tokens| - Pos()
      {
        Consume();
      }
    }

    /** `skip_spaces()`. */
    method SkipSpaces()
      requires Valid()
      modifies this`currentTokenIndex, this`currentToken
      ensures Valid() && Pos() == H.PastSpaces(tokens, old(Pos()))
    {
      while currentToken.Some? && currentToken.value.token == SPACE
        invariant Valid() && old(Pos()) <= Pos()
        invariant H.PastSpaces(tokens, Pos()) == H.PastSpaces(tokens, old(Pos()))
        decreases |tokens| - Pos()
      {
        Consume();
      }
    }

    /** `expect(token_type, error_message)`: the cursor moves on whether or not the
        current token is the one expected. */
    method Expect(tokenType: string, message: string) returns (r: Result<()>)
      requires Valid()
      modifies this`currentTokenIndex, this`currentToken
      ensures Valid() && Pos() == H.Next(tokens, old(Pos()))
      ensures r.Ok? <==> H.At(tokens, old(Pos()), tokenType)
      ensures r.Err? ==> r.exc == ExpectFailure(message)
    {
      var prev := currentToken;
      Consume();
      if prev.None? || prev.value.token != tokenType {
        return Err(ExpectFailure(message));
      }
      r := Ok(());
    }

    /** `look_ahead()`: the first non-space token from `current_token_index` on, the
        cursor unmoved. */
    method LookAhead() returns (t: Option<Token>)
      requires currentTokenIndex <= |tokens|
      ensures t == H.NextNonSpace(tokens, currentTokenIndex)
    {
      var i := currentTokenIndex;
      while i < |tokens|
        invariant currentTokenIndex <= i <= |tokens|
        invariant H.NextNonSpace(tokens, i) == H.NextNonSpace(tokens, currentTokenIndex)
        decreases |tokens| - i
      {
        if tokens[i].token != SPACE {
          return Some(tokens[i]);
        }
        i := i + 1;
      }
      t := None;
    }

    /** `produce_ast()`: play blocks until `gameOver`; an exception on the way is
        the result. */
    method ProduceAst() returns (r: Result<Node>)
      requires Valid()
      modifies this
      ensures Valid() && r == ProduceFrom(tokens, old(varList), old(Pos()))
    {
      ghost var p0 := Pos();
      var body: seq<Node> := [];
      while currentToken.Some? && currentToken.value.token != "gameOver"
        invariant Valid()
        invariant ProgramLoop(tokens, varList, body, Pos()) == ProgramLoop(tokens, old(varList), [], p0)
        decreases |tokens| - Pos()
      {
        SkipWhitespace();
        if currentToken.Some? && currentToken.value.token == "play" {
          ghost var q := Pos();
          var f := ParseFunc();
          if f.Err? {
            return Err(f.exc);
          }
          body := body + [f.value];
          Consume();
          assert Pos() > q;
        } else if currentToken.None? {
          return Err(H.NoneToken);
        } else {
          return Fail(PlainException, Unexpected + currentToken.value.token);
        }
      }
      r := Ok(Program(body));
    }

    /** `parse_func()`. */
    method ParseFunc() returns (r: Result<Node>)
      requires Valid()
      modifies this
      ensures Valid() && YieldsStmt(r, FuncAt(tokens, old(varList), old(Pos())))
    {
      SkipWhitespace();
      if currentToken.None? || currentToken.value.token != "play" {
        return Fail(PlainException, ExpectPlay);
      }
      ghost var q := Pos();
      ghost var vars0 := varList;
      Consume();
      Consume();
      SkipWhitespace();
      Consume();
      SkipWhitespace();
      Consume();
      assert Pos() == BodyStart(tokens, q);
      ghost var b := Pos();
      var body: seq<Node> := [];
      while currentToken.Some? && currentToken.value.token != "}"
        invariant Valid()
        invariant BodyLoop(tokens, varList, body, Pos()) == BodyLoop(tokens, vars0, [], b)
        decreases |tokens| - Pos()
      {
        var s := ParseStmt();
        if s.Err? {
          return Err(s.exc);
        }
        body := body + [s.value];
        SkipWhitespace();
      }
      var closed := Expect("}", CloseBody);
      if closed.Err? {
        return Err(closed.exc);
      }
      r := Ok(PlayFunc(BlockStmt(body)));
    }

    /** `parse_stmt(scope)`; the `scope` argument is never read and is left out. */
    method ParseStmt() returns (r: Result<Node>)
      requires Valid()
      modifies this
      ensures Valid() && YieldsStmt(r, StmtAt(tokens, old(varList), old(Pos())))
    {
      SkipWhitespace();
      ghost var q := Pos();
      ghost var vars0 := varList;
      if currentToken.Some? && H.IsIdToken(currentToken.value.token) {
        var la := LookAhead();
        assert currentTokenIndex == q + 1;
        if la.Some? && (la.value.token == ":" || la.value.token == ",") {
          assert StartsInit(tokens, q);
          assert StmtAt(tokens, old(varList), old(Pos())) == VarInitAt(tokens, vars0, q);
          r := ParseVarInit();
        } else if la.None? {
          r := Err(H.NoneToken);
        } else {
          r := Fail(PlainException, Unexpected + la.value.token);
        }
      } else if currentToken.None? {
        r := Err(H.NoneToken);
      } else {
        r := Fail(PlainException, Unexpected + currentToken.value.token);
      }
    }

    /** `parse_var_init(scope)`. */
    method ParseVarInit() returns (r: Result<Node>)
      requires Valid()
      modifies this
      ensures Valid() && YieldsStmt(r, VarInitAt(tokens, old(varList), old(Pos())))
    {
      SkipWhitespace();
      if currentToken.None? {
        return Err(H.NoneLexeme);
      }
      ghost var q := Pos();
      var name := currentToken.value.lexeme;
      Consume();
      SkipWhitespace();
      Consume();
      SkipWhitespace();
      assert Pos() == ValueStart(tokens, q);
      r := ParseInitValue(name, q);
    }

    /** The rest of `parse_var_init`, from the start of the value. */
    method ParseInitValue(name: string, ghost q: nat) returns (r: Result<Node>)
      requires Valid() && q < |tokens| && name == tokens[q].lexeme && Pos() == ValueStart(tokens, q)
      modifies this
      ensures Valid()
      ensures YieldsStmt(r, var v :- ExprAt(tokens, old(Pos()));
        Ok(Initialised(old(varList), name, v.node, PastWhitespace(tokens, v.pos))))
    {
      var value := ParseExpr();
      if value.Err? {
        return value;
      }
      SkipWhitespace();
      var n := Record(name, value.value, Pos());
      r := Ok(n);
    }

    /** The `var_list` test of `parse_var_init`. */
    method Record(name: string, value: Node, ghost e: nat) returns (n: Node)
      modifies this`varList
      ensures Stmt(n, varList, e) == Initialised(old(varList), name, value, e)
    {
      if name in varList {
        return VarAssignment(Identifier(name), ":", value);
      }
      varList := varList + [name];
      n := VarDec(Identifier(name), value);
    }

    /** `parse_expr()`. */
    method ParseExpr() returns (r: Result<Node>)
      requires Valid()
      modifies this`currentTokenIndex, this`currentToken
      ensures Valid() && Yields(r, ExprAt(tokens, old(Pos())))
      decreases |tokens| - Pos(), 4
    {
      SkipSpaces();
      r := ParseAdditive();
    }

    /** `parse_additive_expr()`. */
    method ParseAdditive() returns (r: Result<Node>)
      requires Valid()
      modifies this`currentTokenIndex, this`currentToken
      ensures Valid() && Yields(r, AddAt(tokens, old(Pos())))
      decreases |tokens| - Pos(), 3
    {
      SkipSpaces();
      var left := ParseMultiplicative();
      if left.Err? {
        return left;
      }
      var l := left.value;
      while currentToken.Some? && H.IsAdditiveOp(currentToken.value.token)
        invariant Valid() && old(Pos()) <= Pos()
        invariant AddRest(tokens, l, Pos()) == AddAt(tokens, old(Pos()))
        decreases |tokens| - Pos()
      {
        var op := currentToken.value.token;
        Consume();
        SkipSpaces();
        var right := ParseMultiplicative();
        if right.Err? {
          return right;
        }
        l := BinaryExpr(l, op, right.value);
      }
      r := Ok(l);
    }

    /** `parse_multiplicative_expr()`. */
    method ParseMultiplicative() returns (r: Result<Node>)
      requires Valid()
      modifies this`currentTokenIndex, this`currentToken
      ensures Valid() && Yields(r, MulAt(tokens, old(Pos())))
      decreases |tokens| - Pos(), 2
    {
      SkipSpaces();
      var left := ParsePrimary();
      if left.Err? {
        return left;
      }
      var l := left.value;
      while currentToken.Some? && IsMultiplicativeOp(currentToken.value.token)
        invariant Valid() && old(Pos()) <= Pos()
        invariant MulRest(tokens, l, Pos()) == MulAt(tokens, old(Pos()))
        decreases |tokens| - Pos()
      {
        var op := currentToken.value.token;
        Consume();
        SkipSpaces();
        var right := ParsePrimary();
        if right.Err? {
          return right;
        }
        l := BinaryExpr(l, op, right.value);
      }
      r := Ok(l);
    }

    /** `parse_primary_expr()`. */
    method ParsePrimary() returns (r: Result<Node>)
      requires Valid()
      modifies this`currentTokenIndex, this`currentToken
      ensures Valid() && Yields(r, PrimaryAt(tokens, old(Pos())))
      decreases |tokens| - Pos(), 1
    {
      SkipSpaces();
      if currentToken.None? {
        return Fail(PlainException, UnexpectedEnd);
      }
      var t := currentToken.value;
      var literal := Literal(t);
      if H.IsIdToken(t.token) || t.token == "id" {
        Consume();
        SkipSpaces();
        r := Ok(Identifier(t.lexeme));
      } else if literal.Some? {
        if literal.value.Err? {
          return literal.value;
        }
        Consume();
        SkipSpaces();
        r := literal.value;
      } else if t.token == "(" {
        Consume();
        SkipSpaces();
        var value := ParseExpr();
        if value.Err? {
          return value;
        }
        var closed := Expect(")", CloseParen);
        if closed.Err? {
          return Err(closed.exc);
        }
        SkipSpaces();
        r := value;
      } else {
        r := Fail(PlainException, Unexpected + t.token);
      }
    }
  }

  // ---- check ------------------------------------------------------------------------

  const LexicalErrors: string := "Lexical errors found, cannot continue with syntax analyzing. Please check lexer tab."
  const SyntaxErrors: string := "Syntax errors found, cannot continue with semantic analyzing. Please check syntax tab."
  const ValidSyntax: string := "No lexical errors found!\nValid syntax."

  /** What `check` returns: a message with an empty table, or what `produce_ast`
      returned with the analyser's table. */
  datatype Outcome<T> = Message(text: string) | Analysed(ast: Result<Node>, table: T)

  /** The Python class name of an exception, as `str` of an `AttributeError` on it
      shows it. */
  function ClassName(k: ExcKind): string {
    match k
    case SemanticError => "SemanticError"
    case ParserError => "ParserError"
    case SymbolTableError => "SymbolTableError"
    case PlainException => "Exception"
    case SyntaxError => "SyntaxError"
    case TypeError => "TypeError"
    case AttributeError => "AttributeError"
    case IndexError => "IndexError"
    case KeyError => "KeyError"
    case ZeroDivisionError => "ZeroDivisionError"
    case ValueError => "ValueError"
    case RecursionError => "RecursionError"
    case UnboundLocalError => "UnboundLocalError"
    case Unfinished => "Unfinished"
  }

  /** The two visitor passes over what `produce_ast` returned, `analyse` being the
      passes over a program: an exception object has no `kind`, so visiting it
      raises at once. */
  function Analyse<T>(ast: Result<Node>, analyse: Node -> Result<T>): (r: Result<T>)
    ensures ast.Err? ==> r == Fail(AttributeError, "'" + ClassName(ast.exc.kind) + "' object has no attribute 'kind'")
    ensures ast.Ok? ==> r == analyse(ast.value)
  {
    if ast.Err? then Fail(AttributeError, "'" + ClassName(ast.exc.kind) + "' object has no attribute 'kind'")
    else analyse(ast.value)
  }

  /** `check` after the lexer: lexical errors and a syntax result other than the
      expected text stop it with a message; an exception in the visitor passes is
      turned into its message. */
  function CheckTokens<T>(toks: seq<Token>, errors: seq<Lexer.LexError>, syntax: string, analyse: Node -> Result<T>): (o: Outcome<T>)
    ensures errors != [] ==> o == Message(LexicalErrors)
    ensures errors == [] && syntax != ValidSyntax ==> o == Message(SyntaxErrors)
    ensures errors == [] && syntax == ValidSyntax ==>
      match Analyse(ProduceAst(toks), analyse)
      case Ok(table) => o == Analysed(ProduceAst(toks), table)
      case Err(e) => o == Message(e.msg)
  {
    if errors != [] then Message(LexicalErrors)
    else if syntax != ValidSyntax then Message(SyntaxErrors)
    else
      var ast := ProduceAst(toks);
      match Analyse(ast, analyse)
      case Ok(table) => Analysed(ast, table)
      case Err(e) => Message(e.msg)
  }

  /** `check(fn, text)`: the lexer, then the syntax result `syntax` that `parse`
      gives for the same text, then `produce_ast` and the visitor passes. The
      lexer's own exception on an empty text is not caught. `toks` are the tokens
      `run` gives for `text`, with what `Lexer.Tokenised` promises of them.
      `errors` is the lexer's error list; the model describes it no further. */
  method Check<T>(text: string, syntax: string, analyse: Node -> Result<T>)
    returns (r: Result<Outcome<T>>, ghost toks: seq<Token>, ghost errors: seq<Lexer.LexError>, ghost ids: map<string, string>, ghost starts: seq<nat>)
    ensures r.Err? <==> text == []
    ensures r.Ok? ==> Lexer.Tokenised(text, toks, ids, starts)
    ensures r.Ok? ==> r.value == CheckTokens(toks, errors, syntax, analyse)
    ensures r.Ok? && errors == [] && syntax == ValidSyntax && ProduceAst(toks).Err? ==>
      r.value.Message? && r.value.text == "'" + ClassName(ProduceAst(toks).exc.kind) + "' object has no attribute 'kind'"
  {
    var lexed;
    lexed, ids, starts := Lexer.Run(text);
    if lexed.Err? {
      toks, errors := [], [];
      r := Err(lexed.exc);
      return;
    }
    toks, errors := lexed.value.0, lexed.value.1;
    if lexed.value.1 != [] {
      r := Ok(Message(LexicalErrors));
      return;
    }
    if syntax != ValidSyntax {
      r := Ok(Message(SyntaxErrors));
      return;
    }
    var semantic := new Semantic(lexed.value.0);
    var ast := semantic.ProduceAst();
    var passes := Analyse(ast, analyse);
    if passes.Err? {
      r := Ok(Message(passes.exc.msg));
      return;
    }
    r := Ok(Analysed(ast, passes.value));
  }
}
