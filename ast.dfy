/** The first statement parser of the Ludus front end (ludus/ast.py): `play` blocks
    of variable, array, struct and struct-instance declarations and assignments,
    parsed while the symbol table is filled, with every value evaluated by the
    evaluator of module `Interpreter` as soon as it is parsed.

    As in module `NewAst`, the first half states what each method computes as a
    function of the tokens, the position of the current token (`|tokens|` for
    `None`) and the symbol table; the class `Semantic` is the Python class, whose
    methods move the cursor and update the table and are proved to compute exactly
    these functions.

    The symbol table is the one of ludus/runtime/symbol_table.py, whose
    `define_variable` and `get_variable` are modelled in module `SymbolTable`. The
    other table methods this parser calls are not part of this model; `Store` holds
    what their names and their uses here show: each `define_*` binds a name in the
    table of its kind, each `check_*` asks whether it is bound, each `get_*` reads the
    binding back, and the two `modify_*` methods overwrite one cell or one field. */
module Ast {
  import opened Results
  import opened Values
  import opened Nodes
  import Decimal
  import Lexer
  import H = HelperParser
  import N = NewAst
  import SymbolTable
  import Interpreter

  type Token = Lexer.Token
  type Parsed = H.Parsed

  // ---- the symbol table ------------------------------------------------------------

  /** A Python value of an array's `eval_values`: a value or a nested list. */
  datatype Elem = One(value: Value) | Many(elems: seq<Elem>)

  /** An array entry: its dimensions, its values (`None` for a `dead` array), the
      declared datatype when one was passed, and whether it was declared `dead`. */
  datatype ArrayRec = ArrayRec(dims: seq<Option<int>>, values: Option<seq<Elem>>, dtype: Option<string>, dead: bool)

  /** An entry of a struct's field table: the name, the datatype token and the
      value (`Dead` for `None`). Field tables keep Python's insertion order. */
  datatype Field = Field(name: string, dtype: string, value: Value)

  /** The symbol table: the variable dictionary that `get_variable` reads, the
      names declared `immo`, and the arrays, structs and struct instances. */
  datatype Store = Store(
    vars: map<string, Value>,
    immo: set<string>,
    arrays: map<string, ArrayRec>,
    structs: map<string, seq<Field>>,
    insts: map<string, seq<Field>>)

  /** `SymbolTable()`. */
  const EmptyStore: Store := Store(map[], {}, map[], map[], map[])

  /** `define_def_variable` (or `define_dead_variable` with `Dead`) for each name in
      turn. */
  function DefineEach(vars: map<string, Value>, names: seq<string>, v: Value): (r: map<string, Value>)
    decreases |names|
  {
    if names == [] then vars else DefineEach(vars[names[0] := v], names[1..], v)
  }

  /** The names of a field table, in order. */
  function FieldNames(fields: seq<Field>): (ns: seq<string>)
    ensures |ns| == |fields|
    ensures forall k :: 0 <= k < |fields| ==> ns[k] == fields[k].name
  {
    if fields == [] then [] else [fields[0].name] + FieldNames(fields[1..])
  }

  /** `modify_array`: the cell at an index path is overwritten; a path that does not
      lead to a cell leaves the values as they are. */
  function SetAt(elems: seq<Elem>, path: seq<int>, v: Value): (r: seq<Elem>)
    ensures |r| == |elems|
    decreases path
  {
    if path == [] || !(0 <= path[0] < |elems|) then elems
    else if |path| == 1 then elems[path[0] := One(v)]
    else if elems[path[0]].Many? then elems[path[0] := Many(SetAt(elems[path[0]].elems, path[1..], v))]
    else elems
  }

  /** `modify_structinst_field`: the value of the named field is overwritten. */
  function SetField(fields: seq<Field>, name: string, v: Value): (r: seq<Field>)
    ensures FieldNames(r) == FieldNames(fields)
  {
    if fields == [] then []
    else if fields[0].name == name then [fields[0].(value := v)] + fields[1..]
    else [fields[0]] + SetField(fields[1..], name, v)
  }

  // ---- messages ---------------------------------------------------------------------

  const UnexpectedEnd: string := "Unexpected end of input during parsing!"
  const Unexpected: string := "Unexpected token found during parsing: "
  const CloseParen: string := "Unexpected token found inside parenthesised expression. Expected closing parenthesis."
  const ExpectPlay: string := "Expected function declaration keyword 'play'."
  const CloseBody: string := "Expected '}' to close function body."
  const ExpectVariable: string := "Expected variable name."
  const ExpectNameAfterComma: string := "Expected variable name after ','."
  const ExpectColon: string := "Expected ':' in variable initialization."
  const ExpectDead: string := "Expected 'dead' after ':'."
  const CloseDimension: string := "Expected ']' to close array dimension declaration."
  const NullPointer: string := "NullPointerError: Null arrays cannot be initialized with specific size."
  const ExpectArrayColon: string := "Expected ':' in array initialization or modification."
  const OpenNested: string := "Expected '[' for nested array values."
  const CloseNested: string := "Expected ']' to close nested array values."
  const LiteralsOnly: string := "Arrays can only be initialied with literal values."
  const ExpectStructName: string := "Expected struct name after 'build'."
  const StructBraces: string := "StructDeclarationError: Struct fields must be enclosed in curly braces."
  const ExpectParent: string := "Expected struct name after 'access'."
  const ExpectInstance: string := "Expected struct instance name after struct name."
  const NewlineAfterValue: string := "Unexpected newline found after struct instance value."
  const ExpectDot: string := "Expected '.' after struct instance name."
  const ExpectField: string := "Expected struct instance field name after struct instance name."
  const ExpectFieldColon: string := "Expected ':' after struct instance field name."
  const ExpectImmo: string := "Expected identifier or 'access' after 'immo'."
  const ExpectImmoColon: string := "Expected ':' after immo variable name."
  const IndexOutOfRange: Exc := Exc(IndexError, "list index out of range")

  /** `expect(t, msg)`: the `ParserError` raised when the current token is not `t`. */
  function ExpectFailure(msg: string): Exc {
    Exc(ParserError, "Parser Error: " + msg)
  }

  function UnknownType(dt: string): string { "Unknown data type '" + dt + "'." }

  /** `__name__` of a value's Python type. */
  function PyTypeName(v: Value): string {
    match v
    case Hp(_) => "int"
    case Xp(_) => "float"
    case Comms(_) => "str"
    case Flag(_) => "bool"
    case Dead => "NoneType"
  }

  function TypeMismatch(expected: Value, got: Value, name: string): string {
    "TypeMismatchError: Expected " + PyTypeName(expected) + ", but got " + PyTypeName(got) + " in '" + name + "'."
  }

  function IncorrectDims(name: string): string {
    "ArrayIndexError: Incorrect number of dimensions for '" + name + "'."
  }

  function OutOfBounds(dim: int, i: int, name: string): string {
    "ArrayIndexError: Index " + Decimal.IntToString(dim) + " is out of bounds for dimension "
      + Decimal.IntToString(i) + " in '" + name + "'."
  }

  function AlreadyDefinedArray(name: string): string {
    "DeclarationError: Array '" + name + "' is already defined."
  }

  function SizeError(expected: int, got: int): string {
    "ArraySizeError: Expected " + Decimal.IntToString(expected) + " elements, but got " + Decimal.IntToString(got) + "."
  }

  function DuplicateField(name: string): string {
    "FieldError: Duplicate field name detected: '" + name + "'."
  }

  function UndefinedStruct(name: string): string { "Struct '" + name + "' is not defined." }

  function TooManyValues(parent: string, fields: int, values: int): string {
    "Too many values provided for struct '" + parent + "'. Expected " + Decimal.IntToString(fields)
      + ", got " + Decimal.IntToString(values) + "."
  }

  function FieldTypeError(field: string, expected: string, got: string): string {
    "FieldTypeError: Type mismatch for field '" + field + "'. Expected '" + expected + "', but got '" + got + "'."
  }

  function AlreadyDefinedVar(name: string): string {
    "DeclarationError: Variable '" + name + "' is already defined."
  }

  // ---- values and defaults ----------------------------------------------------------

  /** The default of a declaration without a value (`parse_var_dec`); any type
      other than the four value types is refused. */
  function DefaultValue(dt: string): (r: Result<Value>)
    ensures r.Ok? <==> dt == "hp" || dt == "xp" || dt == "comms" || dt == "flag"
    ensures r.Err? ==> r == Fail(ParserError, UnknownType(dt))
  {
    if dt == "hp" then Ok(Hp(0))
    else if dt == "xp" then Ok(Xp(0.0))
    else if dt == "comms" then Ok(Comms(""))
    else if dt == "flag" then Ok(Flag(false))
    else Fail(ParserError, UnknownType(dt))
  }

  /** `TYPE_MAP.get(type(v), None)`: the datatype name of a value, `None` for `None`. */
  function TypeNameOf(v: Value): Option<string> {
    if v.Dead? then None else Some(TypeName(v))
  }

  /** `str` of that name, as an f-string shows it. */
  function ShowTypeName(t: Option<string>): string {
    if t.Some? then t.value else "None"
  }

  /** `get_default_literal(value)`: the literal node of a value, `None` for `None`. */
  function DefaultLiteral(v: Value): (n: Node)
    ensures v.Dead? <==> n == PyValue(Dead)
    ensures !v.Dead? ==> Interpreter.IsLiteral(n) && Interpreter.LiteralValue(n) == v
  {
    match v
    case Hp(i) => HpLiteral(i)
    case Xp(x) => XpLiteral(x)
    case Comms(s) => CommsLiteral(s)
    case Flag(b) => FlagLiteral(b)
    case Dead => PyValue(Dead)
  }

  /** `[x] * n`, and `[x for _ in range(n)]`: `n` copies, none for `n <= 0`. */
  function Repeat<T>(x: T, n: int): (r: seq<T>)
    ensures |r| == if n <= 0 then 0 else n
    ensures forall k :: 0 <= k < |r| ==> r[k] == x
    decreases if n <= 0 then 0 else n
  {
    if n <= 0 then [] else [x] + Repeat(x, n - 1)
  }

  // ---- the expression methods as functions ------------------------------------------
  //
  // Each takes the position of the current token and gives the node with the
  // position afterwards. Whitespace is skipped before each level; nothing is
  // skipped after a token.

  /** `parse_expr`. */
  function ExprAt(toks: seq<Token>, p: nat): (r: Result<Parsed>)
    requires p <= |toks|
    ensures r.Ok? ==> p < r.value.pos <= |toks|
    decreases |toks| - p, 4
  {
    AddAt(toks, N.PastWhitespace(toks, p))
  }

  /** `parse_additive_expr`. */
  function AddAt(toks: seq<Token>, p: nat): (r: Result<Parsed>)
    requires p <= |toks|
    ensures r.Ok? ==> p < r.value.pos <= |toks|
    decreases |toks| - p, 3
  {
    var left :- MulAt(toks, N.PastWhitespace(toks, p));
    AddRest(toks, left.node, left.pos)
  }

  /** The `while` loop of `parse_additive_expr` (`token in '+-'`), from a left operand. */
  function AddRest(toks: seq<Token>, left: Node, p: nat): (r: Result<Parsed>)
    requires p <= |toks|
    ensures r.Ok? ==> p <= r.value.pos <= |toks|
    decreases |toks| - p, 0
  {
    if p < |toks| && H.IsAdditiveOp(toks[p].token) then
      var right :- MulAt(toks, p + 1);
      AddRest(toks, BinaryExpr(left, toks[p].token, right.node), right.pos)
    else Ok(H.Parsed(left, p))
  }

  /** `parse_multiplicative_expr`. */
  function MulAt(toks: seq<Token>, p: nat): (r: Result<Parsed>)
    requires p <= |toks|
    ensures r.Ok? ==> p < r.value.pos <= |toks|
    decreases |toks| - p, 2
  {
    var left :- PrimaryAt(toks, N.PastWhitespace(toks, p));
    MulRest(toks, left.node, left.pos)
  }

  /** The `while` loop of `parse_multiplicative_expr` (`token in ["/", "*", "%"]`). */
  function MulRest(toks: seq<Token>, left: Node, p: nat): (r: Result<Parsed>)
    requires p <= |toks|
    ensures r.Ok? ==> p <= r.value.pos <= |toks|
    decreases |toks| - p, 0
  {
    if p < |toks| && N.IsMultiplicativeOp(toks[p].token) then
      var right :- PrimaryAt(toks, p + 1);
      MulRest(toks, BinaryExpr(left, toks[p].token, right.node), right.pos)
    else Ok(H.Parsed(left, p))
  }

  /** `parse_primary_expr`. */
  function PrimaryAt(toks: seq<Token>, p: nat): (r: Result<Parsed>)
    requires p <= |toks|
    ensures r.Ok? ==> p < r.value.pos <= |toks|
    decreases |toks| - p, 1
  {
    var q := N.PastWhitespace(toks, p);
    if q == |toks| then Fail(ParserError, UnexpectedEnd)
    else TokenAt(toks, q)
  }

  /** The branches of `parse_primary_expr` on the current token at `q`: an
      identifier, a literal, or a parenthesised expression. */
  function TokenAt(toks: seq<Token>, q: nat): (r: Result<Parsed>)
    requires q < |toks|
    ensures r.Ok? ==> q < r.value.pos <= |toks|
    decreases |toks| - q, 0
  {
    var t := toks[q];
    if H.IsIdToken(t.token) || t.token == "id" then Ok(H.Parsed(Identifier(t.lexeme), q + 1))
    else if N.Literal(t).Some? then
      var n :- N.Literal(t).value;
      Ok(H.Parsed(n, q + 1))
    else if t.token == "(" then
      var v :- ExprAt(toks, q + 1);
      if !H.At(toks, v.pos, ")") then Err(ExpectFailure(CloseParen))
      else Ok(H.Parsed(v.node, v.pos + 1))
    else Fail(ParserError, Unexpected + t.token)
  }

  /** A parsed value, its evaluated value and the position afterwards. */
  datatype Valued = Valued(node: Node, value: Value, pos: nat)

  /** `value = self.parse_expr()` followed by `evaluate(value, self.symbol_table)`. */
  function ValueAt(toks: seq<Token>, st: Store, p: nat): (r: Result<Valued>)
    requires p <= |toks|
    ensures r.Ok? ==> p < r.value.pos <= |toks|
  {
    var v :- ExprAt(toks, p);
    var e :- Interpreter.Evaluate(v.node, st.vars);
    Ok(Valued(v.node, e, v.pos))
  }

  // ---- statements -------------------------------------------------------------------

  /** A parsed statement, the symbol table afterwards and the position afterwards.
      A statement that fails leaves the table as it was. */
  datatype Stmt = Stmt(node: Node, store: Store, pos: nat)

  /** An identifier token at `q`. */
  predicate IdAt(toks: seq<Token>, q: nat) {
    q < |toks| && H.IsIdToken(toks[q].token)
  }

  /** `parse_stmt()`: the statement the current token (and, after an identifier,
      the next non-space token) selects. */
  function StmtAt(toks: seq<Token>, st: Store, p: nat): (r: Result<Stmt>)
    requires p <= |toks|
    ensures r.Ok? ==> p < r.value.pos <= |toks|
  {
    var q := N.PastWhitespace(toks, p);
    if IdAt(toks, q) then IdStmtAt(toks, st, q)
    else if q == |toks| then Err(H.NoneToken)
    else KeywordStmtAt(toks, st, q)
  }

  /** A statement that starts with an identifier, by the next non-space token. */
  function IdStmtAt(toks: seq<Token>, st: Store, q: nat): (r: Result<Stmt>)
    requires q < |toks|
    ensures r.Ok? ==> q < r.value.pos <= |toks|
  {
    var la := H.NextNonSpace(toks, q + 1);
    if la.None? then Err(H.NoneToken)
    else if la.value.token == ":" || la.value.token == "," then VarInitAt(toks, st, q)
    else if la.value.token == "[" then ArrayAt(toks, st, q)
    else if la.value.token == "." then InstAssignAt(toks, st, q)
    else Fail(ParserError, Unexpected + la.value.token)
  }

  /** A statement that starts with a keyword. */
  function KeywordStmtAt(toks: seq<Token>, st: Store, q: nat): (r: Result<Stmt>)
    requires q < |toks|
    ensures r.Ok? ==> q < r.value.pos <= |toks|
  {
    var t := toks[q].token;
    if t == "hp" || t == "xp" || t == "comms" || t == "flag" then VarOrArrayAt(toks, st, q)
    else if t == "build" then StructAt(toks, st, q)
    else if t == "access" then StructInstAt(toks, st, q)
    else if t == "immo" then ImmoAt(toks, st, q)
    else Fail(ParserError, Unexpected + t)
  }

  // ---- variables --------------------------------------------------------------------

  /** `[VarDec(name=var, value=value) for var in var_names]`. */
  function Declarations(names: seq<string>, value: Node): (ds: seq<Node>)
    ensures |ds| == |names|
    ensures forall k :: 0 <= k < |names| ==> ds[k] == VarDec(Identifier(names[k]), value)
  {
    if names == [] then [] else [VarDec(Identifier(names[0]), value)] + Declarations(names[1..], value)
  }

  /** `parse_var_init()`: the first name and the names after commas, then either
      one value shared by all of them (`a, b: v`) or `name: value` pairs of one
      type. */
  function VarInitAt(toks: seq<Token>, st: Store, p: nat): (r: Result<Stmt>)
    requires p <= |toks|
    ensures r.Ok? ==> p < r.value.pos <= |toks|
  {
    var q := N.PastWhitespace(toks, p);
    if q == |toks| then Err(H.NoneLexeme)
    else
      match NamesLoop(toks, [toks[q].lexeme], N.PastWhitespace(toks, q + 1))
      case Err(e) => Err(e)
      case Ok(ns) => InitValuesAt(toks, st, ns)
  }

  /** Once the first name stands at `q` and the names loop has read `ns`, a
      variable initialisation is the values after those names. */
  lemma VarInitValues(toks: seq<Token>, st: Store, p: nat, q: nat, ns: Names)
    requires p <= |toks| && q == N.PastWhitespace(toks, p) < |toks|
    requires NamesLoop(toks, [toks[q].lexeme], N.PastWhitespace(toks, q + 1)) == Ok(ns)
    ensures VarInitAt(toks, st, p) == InitValuesAt(toks, st, ns)
  {
  }

  /** After the names: one value for all of them after `:`, or one value per name. */
  function InitValuesAt(toks: seq<Token>, st: Store, ns: Names): (r: Result<Stmt>)
    requires ns.pos <= |toks| && |ns.names| >= 1
    ensures r.Ok? ==> ns.pos < r.value.pos <= |toks|
  {
    if ns.shared then SharedAt(toks, st, ns.names, ns.pos)
    else PairsAt(toks, st, ns.names, ns.pos)
  }

  /** The names read by the first loop of `parse_var_init`, whether they share one
      value, and the position where the (first) value starts. */
  datatype Names = Names(names: seq<string>, shared: bool, pos: nat)

  /** The first `while` loop of `parse_var_init`: more names after commas, until a
      name is followed by `:` (one shared value) or the commas end; in the second
      case the token after the last name is eaten without a check. */
  function NamesLoop(toks: seq<Token>, names: seq<string>, p: nat): (r: Result<Names>)
    requires p <= |toks|
    ensures r.Ok? ==> p <= r.value.pos <= |toks| && |names| <= |r.value.names|
    ensures r.Ok? ==> r.value.names[..|names|] == names
    decreases |toks| - p
  {
    if H.At(toks, p, ",") then
      var n :- NameAfterComma(toks, p);
      if H.At(toks, n.pos, ":") then Ok(Names(names + [n.name], true, N.PastWhitespace(toks, n.pos + 1)))
      else NamesLoop(toks, names + [n.name], n.pos)
    else Ok(Names(names, false, N.PastWhitespace(toks, H.Next(toks, p))))
  }

  /** A name and the position after it and the whitespace that follows. */
  datatype Named = Named(name: string, pos: nat)

  /** After the `,` at `p`: whitespace, then an identifier, then whitespace. */
  function NameAfterComma(toks: seq<Token>, p: nat): (r: Result<Named>)
    requires p < |toks|
    ensures r.Ok? ==> p < r.value.pos <= |toks|
    ensures r.Err? ==> r.exc == Exc(ParserError, ExpectNameAfterComma)
  {
    var q := N.PastWhitespace(toks, p + 1);
    if !IdAt(toks, q) then Fail(ParserError, ExpectNameAfterComma)
    else Ok(Named(toks[q].lexeme, N.PastWhitespace(toks, q + 1)))
  }

  /** `a, b, ...: value`: the value is evaluated once and defined for every name. */
  function SharedAt(toks: seq<Token>, st: Store, names: seq<string>, p: nat): (r: Result<Stmt>)
    requires p <= |toks|
    ensures r.Ok? ==> p < r.value.pos <= |toks|
  {
    var v :- ValueAt(toks, st, p);
    Ok(Stmt(BatchVarDec(Declarations(names, v.node)), st.(vars := DefineEach(st.vars, names, v.value)), N.PastWhitespace(toks, v.pos)))
  }

  /** `values_table`: each name's parsed value and evaluated value. */
  type ValuesTable = map<string, (Node, Value)>

  /** After the token taken for `:` has been eaten: the first value, the
      `name: value` pairs, and the definitions. */
  function PairsAt(toks: seq<Token>, st: Store, names: seq<string>, p: nat): (r: Result<Stmt>)
    requires p <= |toks| && |names| >= 1
    ensures r.Ok? ==> p < r.value.pos <= |toks|
  {
    var v :- ValueAt(toks, st, p);
    var ps :- PairsLoop(toks, st, names, map[names[0] := (v.node, v.value)], v.value, v.pos);
    InitEnd(st, ps.names, ps.vt, N.PastWhitespace(toks, ps.pos))
  }

  /** The names and `values_table` after the second loop, and the position there. */
  datatype Pairs = Pairs(names: seq<string>, vt: ValuesTable, pos: nat)

  /** The second `while` loop of `parse_var_init`: one `, name: value` pair at each
      comma. */
  function PairsLoop(toks: seq<Token>, st: Store, names: seq<string>, vt: ValuesTable, first: Value, p: nat): (r: Result<Pairs>)
    requires p <= |toks|
    ensures r.Ok? ==> p <= r.value.pos <= |toks| && |names| <= |r.value.names|
    ensures r.Ok? ==> r.value.names[..|names|] == names && vt.Keys <= r.value.vt.Keys
    decreases |toks| - p
  {
    if H.At(toks, p, ",") then
      var x :- PairAt(toks, st, first, p);
      PairsLoop(toks, st, names + [x.name], vt[x.name := (x.node, x.value)], first, x.pos)
    else Ok(Pairs(names, vt, p))
  }

  /** A name, its parsed value, its evaluated value and the position afterwards. */
  datatype Pair = Pair(name: string, node: Node, value: Value, pos: nat)

  /** One pair after the `,` at `p`: a name, `:`, and a value that must have the
      Python type of the first value. */
  function PairAt(toks: seq<Token>, st: Store, first: Value, p: nat): (r: Result<Pair>)
    requires p < |toks|
    ensures r.Ok? ==> p < r.value.pos <= |toks| && SameType(r.value.value, first)
  {
    var n :- NameAfterComma(toks, p);
    var v :- ColonValueAt(toks, st, ExpectColon, n.pos);
    if !SameType(v.value, first) then Fail(SemanticError, TypeMismatch(first, v.value, n.name))
    else Ok(Pair(n.name, v.node, v.value, v.pos))
  }

  /** A `:` (a `ParserError` with `msg` otherwise), whitespace, and a value. */
  function ColonValueAt(toks: seq<Token>, st: Store, msg: string, p: nat): (r: Result<Valued>)
    requires p <= |toks|
    ensures r.Ok? ==> p < r.value.pos <= |toks|
    ensures !H.At(toks, p, ":") ==> r == Fail(ParserError, msg)
  {
    if !H.At(toks, p, ":") then Fail(ParserError, msg)
    else ValueAt(toks, st, N.PastWhitespace(toks, p + 1))
  }

  /** The end of `parse_var_init`: several names are defined from `values_table`
      (a name left without a value is a `KeyError`); a single name is defined with
      `define_variable` and is an assignment exactly when it was already defined. */
  function InitEnd(st: Store, names: seq<string>, vt: ValuesTable, e: nat): (r: Result<Stmt>)
    requires |names| >= 1 && names[0] in vt
    ensures r.Ok? ==> r.value.pos == e
  {
    if |names| > 1 then
      var vars :- DefineFrom(st.vars, names, vt);
      Ok(Stmt(BatchVarDec(DeclarationsFrom(names, vt)), st.(vars := vars), e))
    else
      var name := names[0];
      var vars :- SymbolTable.Define(st.vars, name, vt[name].1);
      var n := if name in st.vars then VarAssignment(Identifier(name), ":", vt[name].0)
               else VarDec(Identifier(name), vt[name].0);
      Ok(Stmt(n, st.(vars := vars), e))
  }

  /** `define_def_variable(var, values_table[var]["eval_values"])` for each name. */
  function DefineFrom(vars: map<string, Value>, names: seq<string>, vt: ValuesTable): (r: Result<map<string, Value>>)
    ensures r.Ok? <==> forall k :: 0 <= k < |names| ==> names[k] in vt
    ensures r.Err? ==> r.exc.kind == KeyError
    decreases |names|
  {
    if names == [] then Ok(vars)
    else if names[0] !in vt then Fail(KeyError, "'" + names[0] + "'")
    else DefineFrom(vars[names[0] := vt[names[0]].1], names[1..], vt)
  }

  /** `[VarDec(name=var, value=values_table[var]["values"]) for var in var_names]`. */
  function DeclarationsFrom(names: seq<string>, vt: ValuesTable): (ds: seq<Node>)
    requires forall k :: 0 <= k < |names| ==> names[k] in vt
    ensures |ds| == |names|
    ensures forall k :: 0 <= k < |names| ==> ds[k] == VarDec(Identifier(names[k]), vt[names[k]].0)
  {
    if names == [] then [] else [VarDec(Identifier(names[0]), vt[names[0]].0)] + DeclarationsFrom(names[1..], vt)
  }

  /** `var_or_arr()`: after the datatype, a name; `[` after it starts an array. */
  function VarOrArrayAt(toks: seq<Token>, st: Store, p: nat): (r: Result<Stmt>)
    requires p < |toks|
    ensures r.Ok? ==> p < r.value.pos <= |toks|
  {
    var dt := toks[p].token;
    var q := N.PastWhitespace(toks, p + 1);
    if !IdAt(toks, q) then Fail(ParserError, ExpectVariable)
    else
      var la := H.NextNonSpace(toks, q + 1);
      if la.Some? && la.value.token == "[" then EmptyArrayAt(toks, st, dt, q)
      else VarDecAt(toks, st, dt, q, [])
  }

  /** `VarDec`, or `BatchVarDec` for several names, all with one value. */
  function Decs(names: seq<string>, value: Node): (n: Node)
    requires |names| >= 1
  {
    if |names| > 1 then BatchVarDec(Declarations(names, value)) else VarDec(Identifier(names[0]), value)
  }

  /** `parse_var_dec(dt)` at a name: the name, the spaces after it, then
      `VarDecNext`. */
  function VarDecAt(toks: seq<Token>, st: Store, dt: string, p: nat, names: seq<string>): (r: Result<Stmt>)
    requires p <= |toks|
    ensures r.Ok? ==> p < r.value.pos <= |toks|
    decreases |toks| - p, 1
  {
    if p == |toks| then Err(H.NoneLexeme)
    else VarDecNext(toks, st, dt, names + [toks[p].lexeme], H.PastSpaces(toks, p + 1))
  }

  /** The loop test of `parse_var_dec`: a comma (and whitespace) before another
      name, otherwise the end of the names. */
  function VarDecNext(toks: seq<Token>, st: Store, dt: string, names: seq<string>, p: nat): (r: Result<Stmt>)
    requires p <= |toks| && |names| >= 1
    ensures r.Ok? ==> p <= r.value.pos <= |toks|
    decreases |toks| - p, 0
  {
    if H.At(toks, p, ",") then VarDecAt(toks, st, dt, N.PastWhitespace(toks, p + 1), names)
    else VarDecEnd(toks, st, dt, names, p)
  }

  /** The end of `parse_var_dec`: at a newline every name gets the type's default;
      after `: dead` every name is defined `None`; otherwise nothing is defined. */
  function VarDecEnd(toks: seq<Token>, st: Store, dt: string, names: seq<string>, p: nat): (r: Result<Stmt>)
    requires p <= |toks| && |names| >= 1
    ensures r.Ok? ==> p <= r.value.pos <= |toks|
  {
    if H.At(toks, p, "newline") then
      var d :- DefaultValue(dt);
      Ok(Stmt(Decs(names, PyValue(d)), st.(vars := DefineEach(st.vars, names, d)), N.PastWhitespace(toks, p)))
    else if H.At(toks, p, ":") then
      var q := N.PastWhitespace(toks, p + 1);
      if !H.At(toks, q, "dead") then Fail(ParserError, ExpectDead)
      else Ok(Stmt(Decs(names, PyValue(Dead)), st.(vars := DefineEach(st.vars, names, Dead)), N.PastWhitespace(toks, q + 1)))
    else Ok(Stmt(Decs(names, PyValue(Dead)), st, N.PastWhitespace(toks, p)))
  }

  // ---- arrays -----------------------------------------------------------------------

  /** Dimensions read so far and the position afterwards. */
  datatype Dims = Dims(dims: seq<Option<int>>, pos: nat)

  /** The `while '['` loops of `parse_empty_array` and `parse_array`: a size (an hp
      literal) or nothing, then `]`; after each `]` only spaces are skipped when
      `spacesOnly`, otherwise spaces and newlines. */
  function DimsLoop(toks: seq<Token>, dims: seq<Option<int>>, p: nat, spacesOnly: bool): (r: Result<Dims>)
    requires p <= |toks|
    ensures r.Ok? ==> p <= r.value.pos <= |toks| && |r.value.dims| >= |dims|
    ensures r.Ok? ==> !H.At(toks, r.value.pos, "[")
    decreases |toks| - p
  {
    if H.At(toks, p, "[") then
      var d :- DimAt(toks, p, spacesOnly);
      DimsLoop(toks, dims + [d.size], d.pos, spacesOnly)
    else Ok(Dims(dims, p))
  }

  /** One dimension and the position after it. */
  datatype Dim = Dim(size: Option<int>, pos: nat)

  /** One `[size]` or `[]` from the `[` at `p`, and the skip after the `]`. */
  function DimAt(toks: seq<Token>, p: nat, spacesOnly: bool): (r: Result<Dim>)
    requires p < |toks|
    ensures r.Ok? ==> p < r.value.pos <= |toks|
  {
    var z :- SizeAt(toks, p);
    if !H.At(toks, z.pos, "]") then Err(ExpectFailure(CloseDimension))
    else Ok(Dim(z.size, if spacesOnly then H.PastSpaces(toks, z.pos + 1) else N.PastWhitespace(toks, z.pos + 1)))
  }

  /** After the `[` at `p`: an hp literal, `int` of its lexeme, or no size; then
      whitespace. */
  function SizeAt(toks: seq<Token>, p: nat): (r: Result<Dim>)
    requires p < |toks|
    ensures r.Ok? ==> p < r.value.pos <= |toks|
  {
    var q := N.PastWhitespace(toks, p + 1);
    if H.At(toks, q, "hp_ltr") then
      var n :- Decimal.PyInt(toks[q].lexeme);
      Ok(Dim(Some(n), N.PastWhitespace(toks, q + 1)))
    else Ok(Dim(None, q))
  }

  /** The values of an array declared without initialiser, by its shape: `[n]`, `[]`,
      `[m][n]`, `[][n]`, `[m][]` (any other number of sizes is read as the first). */
  function EmptyShape<T>(dims: seq<Option<int>>, x: T, row: seq<T> -> T): (r: seq<T>)
    requires |dims| >= 1
  {
    if |dims| == 2 then
      if dims[0].None? && dims[1].None? then []
      else if dims[0].None? then Repeat(x, dims[1].value)
      else if dims[1].None? then Repeat(row([]), dims[0].value)
      else Repeat(row(Repeat(x, dims[1].value)), dims[0].value)
    else if dims[0].None? then []
    else Repeat(x, dims[0].value)
  }

  /** `HpLiteral(0)`, `XpLiteral(0.0)`, `CommsLiteral('')` or `FlagLiteral(False)`. */
  function DefaultNode(dt: string): (r: Result<Node>)
    ensures r.Ok? <==> DefaultValue(dt).Ok?
    ensures r.Ok? ==> r.value == DefaultLiteral(DefaultValue(dt).value)
  {
    var d :- DefaultValue(dt);
    Ok(DefaultLiteral(d))
  }

  /** `parse_empty_array(dt)`. */
  function EmptyArrayAt(toks: seq<Token>, st: Store, dt: string, p: nat): (r: Result<Stmt>)
    requires p < |toks|
    ensures r.Ok? ==> p < r.value.pos <= |toks|
  {
    var name := toks[p].lexeme;
    var d :- DimsLoop(toks, [], N.PastWhitespace(toks, p + 1), true);
    EmptyArrayEnd(toks, st, dt, name, d.dims, d.pos)
  }

  /** The end of `parse_empty_array`: defaults by shape at a newline; `: dead` for an
      array without sizes; no values otherwise. */
  function EmptyArrayEnd(toks: seq<Token>, st: Store, dt: string, name: string, dims: seq<Option<int>>, p: nat): (r: Result<Stmt>)
    requires p <= |toks|
    ensures r.Ok? ==> p <= r.value.pos <= |toks|
  {
    if H.At(toks, p, "newline") then
      var lit :- DefaultNode(dt);
      if |dims| == 0 then Err(IndexOutOfRange)
      else
        var cells := EmptyShape(dims, Leaf(lit), (cs: seq<Cell>) => Row(cs));
        var elems := EmptyShape(dims, One(Interpreter.LiteralValue(lit)), (es: seq<Elem>) => Many(es));
        Ok(Stmt(ArrayDec(Identifier(name), dims, SomeCells(cells), None, None),
          st.(arrays := st.arrays[name := ArrayRec(dims, Some(elems), Some(dt), true)]), p))
    else if H.At(toks, p, ":") then
      var q := H.PastSpaces(toks, p + 1);
      if !H.At(toks, q, "dead") then Err(ExpectFailure(ExpectDead))
      else if |dims| == 0 then Err(IndexOutOfRange)
      else if Sized(dims) then Fail(ParserError, NullPointer)
      else Ok(Stmt(ArrayDec(Identifier(name), dims, NoCells, None, None),
        st.(arrays := st.arrays[name := ArrayRec(dims, None, Some(dt), true)]), q + 1))
    else Ok(Stmt(ArrayDec(Identifier(name), dims, SomeCells([]), None, None), st, p))
  }

  /** The `: dead` test of `parse_empty_array`: some size that is read is given (for
      two dimensions either one, otherwise the first). */
  predicate Sized(dims: seq<Option<int>>)
    requires |dims| >= 1
  {
    if |dims| == 2 then dims[0].Some? || dims[1].Some? else dims[0].Some?
  }

  predicate AllUnsized(dims: seq<Option<int>>) { forall k :: 0 <= k < |dims| ==> dims[k].None? }
  predicate AllSized(dims: seq<Option<int>>) { forall k :: 0 <= k < |dims| ==> dims[k].Some? }

  /** `parse_array()`: a new array with its initialiser, a `dead` array given its
      values, or an assignment to one cell of a defined array. */
  function ArrayAt(toks: seq<Token>, st: Store, p: nat): (r: Result<Stmt>)
    requires p <= |toks|
    ensures r.Ok? ==> p < r.value.pos <= |toks|
  {
    var h :- ArrayHeadAt(toks, p);
    ArrayBody(toks, st, h.name, h.dims, h.pos)
  }

  /** The name and the dimensions of an array statement and the position after
      its `:`. */
  datatype ArrayHead = ArrayHead(name: string, dims: seq<Option<int>>, pos: nat)

  /** `parse_array` up to the `:` and the whitespace after it. */
  function ArrayHeadAt(toks: seq<Token>, p: nat): (r: Result<ArrayHead>)
    requires p <= |toks|
    ensures r.Ok? ==> p < r.value.pos <= |toks|
  {
    var q := N.PastWhitespace(toks, p);
    if q == |toks| then Err(H.NoneLexeme)
    else DimsColonAt(toks, toks[q].lexeme, N.PastWhitespace(toks, q + 1))
  }

  /** The dimensions of the array `name` from `p`, and the `:` after them. */
  function DimsColonAt(toks: seq<Token>, name: string, p: nat): (r: Result<ArrayHead>)
    requires p <= |toks|
    ensures r.Ok? ==> p < r.value.pos <= |toks|
  {
    var d :- DimsLoop(toks, [], p, false);
    if !H.At(toks, d.pos, ":") then Err(ExpectFailure(ExpectArrayColon))
    else Ok(ArrayHead(name, d.dims, N.PastWhitespace(toks, d.pos + 1)))
  }

  /** `parse_array` after the `:`. */
  function ArrayBody(toks: seq<Token>, st: Store, name: string, dims: seq<Option<int>>, p: nat): (r: Result<Stmt>)
    requires p <= |toks|
    ensures r.Ok? ==> p <= r.value.pos <= |toks|
  {
    if name in st.arrays then
      var existing := st.arrays[name].dims;
      if st.arrays[name].dead then
        if |existing| != |dims| then Fail(ParserError, IncorrectDims(name))
        else ArrayValues(toks, st, name, dims, p)
      else if AllSized(dims) then
        if |existing| != |dims| then Fail(ParserError, IncorrectDims(name))
        else
          var _ :- Bounds(name, dims, existing, 0);
          var v :- ValueAt(toks, st, p);
          Ok(Stmt(ArrAssignment(Identifier(name), ":", v.node), ModifyArray(st, name, dims, v.value), v.pos))
      else Fail(ParserError, AlreadyDefinedArray(name))
    else ArrayValues(toks, st, name, dims, p)
  }

  /** The index test of an array assignment: every index below the stored size of
      its dimension (a stored size `None` cannot be compared). */
  function Bounds(name: string, dims: seq<Option<int>>, existing: seq<Option<int>>, i: nat): (r: Result<()>)
    requires |dims| == |existing| && AllSized(dims) && i <= |dims|
    ensures r.Ok? <==> forall k :: i <= k < |dims| ==> existing[k].Some? && dims[k].value < existing[k].value
    decreases |dims| - i
  {
    if i == |dims| then Ok(())
    else if existing[i].None? then Fail(TypeError, "'>=' not supported between instances of 'int' and 'NoneType'")
    else if dims[i].value >= existing[i].value then Fail(SemanticError, OutOfBounds(dims[i].value, i, name))
    else Bounds(name, dims, existing, i + 1)
  }

  /** `modify_array(name, indices, value)`. */
  function ModifyArray(st: Store, name: string, dims: seq<Option<int>>, v: Value): Store
    requires name in st.arrays && AllSized(dims)
  {
    var a := st.arrays[name];
    var values := if a.values.Some? then Some(SetAt(a.values.value, Indices(dims), v)) else None;
    st.(arrays := st.arrays[name := a.(values := values)])
  }

  /** The sizes of fully sized dimensions, read as indices. */
  function Indices(dims: seq<Option<int>>): (ix: seq<int>)
    requires AllSized(dims)
    ensures |ix| == |dims| && forall k :: 0 <= k < |dims| ==> ix[k] == dims[k].value
  {
    if dims == [] then [] else [dims[0].value] + Indices(dims[1..])
  }

  /** An initialiser, and the definition it makes: dimensions without sizes are
      recounted from the values (two levels when the first value is a list). */
  function ArrayValues(toks: seq<Token>, st: Store, name: string, dims: seq<Option<int>>, p: nat): (r: Result<Stmt>)
    requires p <= |toks|
    ensures r.Ok? ==> p <= r.value.pos <= |toks|
  {
    if |dims| == 0 then Err(IndexOutOfRange)
    else
      var vs :- ValuesAt(toks, st, dims, 0, p);
      if AllUnsized(dims) && |vs.cells| == 0 then Err(IndexOutOfRange)
      else
        var shape := if !AllUnsized(dims) then dims
                     else if vs.cells[0].Row? then [Some(|vs.cells|), Some(|vs.cells[0].cells|)]
                     else [Some(|vs.cells|)];
        Ok(Stmt(ArrayDec(Identifier(name), shape, SomeCells(vs.cells), None, None),
          st.(arrays := st.arrays[name := ArrayRec(shape, Some(vs.elems), None, false)]), vs.pos))
  }

  /** The values of one level of an initialiser and the position afterwards. */
  datatype Vals = Vals(cells: seq<Cell>, elems: seq<Elem>, pos: nat)

  /** One value of a level, its evaluated value and the position afterwards. */
  datatype Item = Item(cell: Cell, elem: Elem, pos: nat)

  /** `parse_array_values(expected_dims, depth)`: values separated by commas up to a
      newline, a sized level holding exactly its size. */
  function ValuesAt(toks: seq<Token>, st: Store, dims: seq<Option<int>>, depth: nat, p: nat): (r: Result<Vals>)
    requires p <= |toks| && depth < |dims|
    ensures r.Ok? ==> p <= r.value.pos <= |toks|
    decreases |toks| - p, 2
  {
    var vs :- ValuesLoop(toks, st, dims, depth, [], [], p);
    if dims[depth].Some? && |vs.cells| != dims[depth].value then
      Fail(SemanticError, SizeError(dims[depth].value, |vs.cells|))
    else Ok(vs)
  }

  /** The `while` loop of `parse_array_values`. */
  function ValuesLoop(toks: seq<Token>, st: Store, dims: seq<Option<int>>, depth: nat, cells: seq<Cell>, elems: seq<Elem>, p: nat): (r: Result<Vals>)
    requires p <= |toks| && depth < |dims|
    ensures r.Ok? ==> p <= r.value.pos <= |toks|
    decreases |toks| - p, 1
  {
    if p < |toks| && toks[p].token != "newline" then
      var it :- ItemAt(toks, st, dims, depth, p);
      var e :- SeparatorAt(toks, it.pos);
      if e.last then Ok(Vals(cells + [it.cell], elems + [it.elem], e.pos))
      else ValuesLoop(toks, st, dims, depth, cells + [it.cell], elems + [it.elem], e.pos)
    else Ok(Vals(cells, elems, p))
  }

  /** After a value of `parse_array_values`: whitespace, then a comma (and the
      whitespace after it) or the end of the level. */
  function SeparatorAt(toks: seq<Token>, p: nat): (r: Result<Stop>)
    requires p <= |toks|
    ensures r.Ok? ==> p <= r.value.pos <= |toks|
  {
    var s := N.PastWhitespace(toks, p);
    if s == |toks| then Err(H.NoneToken)
    else if toks[s].token == "," then Ok(Stop(N.PastWhitespace(toks, s + 1), false))
    else Ok(Stop(s, true))
  }

  /** One value of a level: a bracketed nested level above the last dimension, a
      literal (evaluated before it is tested) at the last. */
  function ItemAt(toks: seq<Token>, st: Store, dims: seq<Option<int>>, depth: nat, p: nat): (r: Result<Item>)
    requires p <= |toks| && depth < |dims|
    ensures r.Ok? ==> p < r.value.pos <= |toks|
    decreases |toks| - p, 0
  {
    if depth + 1 < |dims| then
      if !H.At(toks, p, "[") then Err(ExpectFailure(OpenNested))
      else
        var inner :- ValuesAt(toks, st, dims, depth + 1, N.PastWhitespace(toks, p + 1));
        if !H.At(toks, inner.pos, "]") then Err(ExpectFailure(CloseNested))
        else Ok(Item(Row(inner.cells), Many(inner.elems), inner.pos + 1))
    else
      var v :- ValueAt(toks, st, p);
      if !Interpreter.IsLiteral(v.node) then Fail(ParserError, LiteralsOnly)
      else Ok(Item(Leaf(v.node), One(v.value), v.pos))
  }

  // ---- structs ----------------------------------------------------------------------

  /** `parse_struct()`: `build name { type field [: value], ... }`; a field name may
      appear only once. */
  function StructAt(toks: seq<Token>, st: Store, p: nat): (r: Result<Stmt>)
    requires p <= |toks|
    ensures r.Ok? ==> p < r.value.pos <= |toks|
  {
    var h :- StructHeadAt(toks, p);
    var fs :- FieldsLoop(toks, st, [], [], h.pos);
    Ok(Stmt(StructDec(Identifier(h.name), fs.nodes), st.(structs := st.structs[h.name := fs.fields]),
      N.PastWhitespace(toks, H.Next(toks, fs.pos))))
  }

  /** `build`, the struct's name and the `{`, each followed by whitespace. */
  function StructHeadAt(toks: seq<Token>, p: nat): (r: Result<Named>)
    requires p <= |toks|
    ensures r.Ok? ==> p < r.value.pos <= |toks|
  {
    var n :- KeywordNameAt(toks, p, ExpectStructName);
    if !H.At(toks, n.pos, "{") then Err(ExpectFailure(StructBraces))
    else Ok(Named(n.name, N.PastWhitespace(toks, n.pos + 1)))
  }

  /** A keyword at `p`, then whitespace, an identifier (a `ParserError` with `msg`
      otherwise) and whitespace. */
  function KeywordNameAt(toks: seq<Token>, p: nat, msg: string): (r: Result<Named>)
    requires p <= |toks|
    ensures r.Ok? ==> p < r.value.pos <= |toks|
    ensures r.Err? ==> r.exc == Exc(ParserError, msg)
  {
    var q := N.PastWhitespace(toks, H.Next(toks, p));
    if !IdAt(toks, q) then Fail(ParserError, msg)
    else Ok(Named(toks[q].lexeme, N.PastWhitespace(toks, q + 1)))
  }

  /** The declared fields' nodes and field-table entries, and the position of the
      token that ended the loop. */
  datatype Fields = Fields(nodes: seq<Node>, fields: seq<Field>, pos: nat)

  /** The `while` loop of `parse_struct` over the fields, up to a `}` (which is
      eaten unread afterwards). */
  function FieldsLoop(toks: seq<Token>, st: Store, nodes: seq<Node>, fields: seq<Field>, p: nat): (r: Result<Fields>)
    requires p <= |toks|
    ensures r.Ok? ==> p <= r.value.pos <= |toks|
    decreases |toks| - p
  {
    if p < |toks| && toks[p].token != "}" then
      var f :- FieldAt(toks, st, FieldNames(fields), p);
      FieldsLoop(toks, st, nodes + [f.node], fields + [f.field], PastComma(toks, f.pos))
    else Ok(Fields(nodes, fields, p))
  }

  /** A field of a struct declaration: its node, its field-table entry and the
      position afterwards. */
  datatype FieldItem = FieldItem(node: Node, field: Field, pos: nat)

  /** One field of `parse_struct`: the datatype token, the name, and `: value` when
      a colon follows; the name must not be in `seen`, the fields before it. */
  function FieldAt(toks: seq<Token>, st: Store, seen: seq<string>, p: nat): (r: Result<FieldItem>)
    requires p < |toks|
    ensures r.Ok? ==> p < r.value.pos <= |toks|
  {
    var h :- FieldNameAt(toks, p);
    var v :- FieldValueAt(toks, st, h.pos);
    if h.field in seen then Fail(ParserError, DuplicateField(h.field))
    else Ok(FieldItem(StructFields(Identifier(h.field), v.node, None), Field(h.field, h.dtype, v.value), v.pos))
  }

  /** The datatype token and the name of a field and the position after them. */
  datatype FieldHead = FieldHead(dtype: string, field: string, pos: nat)

  /** The datatype token at `p` and the name after it, each followed by whitespace. */
  function FieldNameAt(toks: seq<Token>, p: nat): (r: Result<FieldHead>)
    requires p < |toks|
    ensures r.Ok? ==> p < r.value.pos <= |toks|
  {
    var a := N.PastWhitespace(toks, p + 1);
    if a == |toks| then Err(H.NoneLexeme)
    else Ok(FieldHead(toks[p].token, toks[a].lexeme, N.PastWhitespace(toks, a + 1)))
  }

  /** `: value` and the whitespace after it, or no value (`None`, kept as the
      node `PyValue(Dead)`) when no colon follows. */
  function FieldValueAt(toks: seq<Token>, st: Store, b: nat): (r: Result<Valued>)
    requires b <= |toks|
    ensures r.Ok? ==> b <= r.value.pos <= |toks|
  {
    if b == |toks| then Err(H.NoneToken)
    else if toks[b].token == ":" then
      var v :- ValueAt(toks, st, N.PastWhitespace(toks, b + 1));
      Ok(Valued(v.node, v.value, N.PastWhitespace(toks, v.pos)))
    else Ok(Valued(PyValue(Dead), Dead, b))
  }

  /** A comma (and the whitespace after it) is eaten when it is there. */
  function PastComma(toks: seq<Token>, p: nat): (q: nat)
    requires p <= |toks|
    ensures p <= q <= |toks|
  {
    if H.At(toks, p, ",") then N.PastWhitespace(toks, p + 1) else p
  }

  /** Values of a struct instance, their evaluated values and the position afterwards. */
  datatype Args = Args(nodes: seq<Node>, evals: seq<Value>, pos: nat)

  /** `parse_struct_inst()`: `access parent name [: values]`, then
      `create_struct_instance`. */
  function StructInstAt(toks: seq<Token>, st: Store, p: nat): (r: Result<Stmt>)
    requires p <= |toks|
    ensures r.Ok? ==> p < r.value.pos <= |toks|
  {
    var parent :- ParentAt(toks, st, p);
    var inst :- NameThenSpaces(toks, parent.pos, ExpectInstance);
    InstValuesAt(toks, st, inst.name, parent.name, inst.pos)
  }

  /** After the instance name: `: values` or nothing, then the instance. */
  function InstValuesAt(toks: seq<Token>, st: Store, name: string, parent: string, u: nat): (r: Result<Stmt>)
    requires u <= |toks| && parent in st.structs
    ensures r.Ok? ==> u <= r.value.pos <= |toks|
  {
    var args :- InstArgsAt(toks, st, u);
    Instance(st, name, parent, st.structs[parent], args.nodes, args.evals, args.pos)
  }

  /** `: values` after the instance name, or no values. */
  function InstArgsAt(toks: seq<Token>, st: Store, u: nat): (r: Result<Args>)
    requires u <= |toks|
    ensures r.Ok? ==> u <= r.value.pos <= |toks| && |r.value.nodes| == |r.value.evals|
  {
    if u == |toks| then Err(H.NoneToken)
    else if toks[u].token == ":" then ArgsLoop(toks, st, [], [], H.PastSpaces(toks, u + 1))
    else Ok(Args([], [], u))
  }

  /** After `access`: whitespace, the name of a defined struct, then spaces. */
  function ParentAt(toks: seq<Token>, st: Store, p: nat): (r: Result<Named>)
    requires p <= |toks|
    ensures r.Ok? ==> p < r.value.pos <= |toks| && r.value.name in st.structs
  {
    var q := N.PastWhitespace(toks, H.Next(toks, p));
    if !IdAt(toks, q) then Fail(ParserError, ExpectParent)
    else if toks[q].lexeme !in st.structs then Fail(ParserError, UndefinedStruct(toks[q].lexeme))
    else Ok(Named(toks[q].lexeme, H.PastSpaces(toks, q + 1)))
  }

  /** An identifier at `p` (a `ParserError` with `msg` otherwise), then spaces. */
  function NameThenSpaces(toks: seq<Token>, p: nat, msg: string): (r: Result<Named>)
    requires p <= |toks|
    ensures r.Ok? ==> p < r.value.pos <= |toks|
    ensures r.Err? <==> !IdAt(toks, p)
  {
    if !IdAt(toks, p) then Fail(ParserError, msg)
    else Ok(Named(toks[p].lexeme, H.PastSpaces(toks, p + 1)))
  }

  /** The `while` loop of `parse_struct_inst`: values up to a comma that does not
      follow a value, or a newline after a value; a newline right after a comma is
      refused. */
  function ArgsLoop(toks: seq<Token>, st: Store, nodes: seq<Node>, evals: seq<Value>, p: nat): (r: Result<Args>)
    requires p <= |toks| && |nodes| == |evals|
    ensures r.Ok? ==> p <= r.value.pos <= |toks| && |r.value.nodes| == |r.value.evals|
    decreases |toks| - p
  {
    if p == |toks| then Err(H.NoneToken)
    else if toks[p].token == "," then Ok(Args(nodes, evals, p))
    else
      var v :- ValueAt(toks, st, p);
      var e :- ArgEndAt(toks, v.pos);
      if e.last then Ok(Args(nodes + [v.node], evals + [v.value], e.pos))
      else ArgsLoop(toks, st, nodes + [v.node], evals + [v.value], e.pos)
  }

  /** Where one iteration of a loop ends, and whether the loop stops there. */
  datatype Stop = Stop(pos: nat, last: bool)

  /** After a value of `parse_struct_inst`: spaces, then a comma (with spaces after
      it, and no newline), a newline that ends the loop, or anything else. */
  function ArgEndAt(toks: seq<Token>, p: nat): (r: Result<Stop>)
    requires p <= |toks|
    ensures r.Ok? ==> p <= r.value.pos < |toks|
    ensures r.Ok? && r.value.last ==> toks[r.value.pos].token == N.NEWLINE
  {
    var s := H.PastSpaces(toks, p);
    if s == |toks| then Err(H.NoneToken)
    else if toks[s].token == "," then
      var w := H.PastSpaces(toks, s + 1);
      if w == |toks| then Err(H.NoneToken)
      else if toks[w].token == N.NEWLINE then Fail(ParserError, NewlineAfterValue)
      else Ok(Stop(w, false))
    else Ok(Stop(s, toks[s].token == N.NEWLINE))
  }

  /** `create_struct_instance(...)`: at most as many values as the parent has
      fields; the `i`-th value must have the `i`-th field's datatype; the instance
      is defined with the filled field table. */
  function Instance(st: Store, name: string, parent: string, fields: seq<Field>, nodes: seq<Node>, evals: seq<Value>, e: nat): (r: Result<Stmt>)
    requires |evals| <= |nodes|
    ensures r.Ok? ==> r.value.pos == e
  {
    if |evals| > |fields| then Fail(ParserError, TooManyValues(parent, |fields|, |evals|))
    else
      var filled :- Fill(fields, nodes, evals, 0, [], []);
      Ok(Stmt(StructInst(Identifier(name), parent, filled.0, None), st.(insts := st.insts[name := filled.1]), e))
  }

  /** The `for` loop of `create_struct_instance` from field `i` on, after the body
      entries `body` and the new field table `table` of the fields before it. */
  function Fill(fields: seq<Field>, nodes: seq<Node>, evals: seq<Value>, i: nat, body: seq<Node>, table: seq<Field>): (r: Result<(seq<Node>, seq<Field>)>)
    requires |evals| <= |nodes| && i <= |fields|
    ensures r.Ok? ==> |r.value.0| == |body| + |fields| - i && |r.value.1| == |table| + |fields| - i
    decreases |fields| - i
  {
    if i == |fields| then Ok((body, table))
    else
      var f := fields[i];
      if i < |evals| then
        var actual := TypeNameOf(evals[i]);
        if actual != Some(f.dtype) then Fail(ParserError, FieldTypeError(f.name, f.dtype, ShowTypeName(actual)))
        else Fill(fields, nodes, evals, i + 1, body + [StructFields(PyValue(Comms(f.name)), nodes[i], None)],
          table + [Field(f.name, f.dtype, evals[i])])
      else
        Fill(fields, nodes, evals, i + 1, body + [StructFields(PyValue(Comms(f.name)), DefaultLiteral(f.value), None)],
          table + [f])
  }

  /** `parse_inst_ass()`: `instance.field: value`, the `.` right after the name. The
      results of `check_structinst` and `check_structinst_field` are not used. */
  function InstAssignAt(toks: seq<Token>, st: Store, p: nat): (r: Result<Stmt>)
    requires p <= |toks|
    ensures r.Ok? ==> p < r.value.pos <= |toks|
  {
    var t :- InstFieldAt(toks, p);
    var v :- ExpectValueAt(toks, st, ExpectFieldColon, t.pos);
    Ok(Stmt(InstAssignment(StructInstField(Identifier(t.inst), Identifier(t.field)), ":", v.node),
      ModifyField(st, t.inst, t.field, v.value), v.pos))
  }

  /** The instance and field names of an assignment and the position after them. */
  datatype Target = Target(inst: string, field: string, pos: nat)

  /** `instance.field` from `p`, with no space around the `.`, then spaces. */
  function InstFieldAt(toks: seq<Token>, p: nat): (r: Result<Target>)
    requires p <= |toks|
    ensures r.Ok? ==> p < r.value.pos <= |toks|
  {
    if p == |toks| then Err(H.NoneLexeme)
    else if p + 1 == |toks| then Err(H.NoneToken)
    else if toks[p + 1].token != "." then Fail(ParserError, ExpectDot)
    else if !IdAt(toks, p + 2) then Fail(ParserError, ExpectField)
    else Ok(Target(toks[p].lexeme, toks[p + 2].lexeme, H.PastSpaces(toks, p + 3)))
  }

  /** `expect(":", msg)`, spaces, and a value. */
  function ExpectValueAt(toks: seq<Token>, st: Store, msg: string, p: nat): (r: Result<Valued>)
    requires p <= |toks|
    ensures r.Ok? ==> p < r.value.pos <= |toks|
    ensures !H.At(toks, p, ":") ==> r == Err(ExpectFailure(msg))
  {
    if !H.At(toks, p, ":") then Err(ExpectFailure(msg))
    else ValueAt(toks, st, H.PastSpaces(toks, p + 1))
  }

  /** `modify_structinst_field(instance, field, value)`. */
  function ModifyField(st: Store, inst: string, field: string, v: Value): Store {
    if inst in st.insts then st.(insts := st.insts[inst := SetField(st.insts[inst], field, v)]) else st
  }

  // ---- immo -------------------------------------------------------------------------

  /** `parse_immo()`: `immo name: value`; before `access` the method returns `None`
      with the cursor on `access`. */
  function ImmoAt(toks: seq<Token>, st: Store, p: nat): (r: Result<Stmt>)
    requires p <= |toks|
    ensures r.Ok? ==> p < r.value.pos <= |toks|
  {
    var a := H.PastSpaces(toks, H.Next(toks, p));
    if a == |toks| then Err(H.NoneToken)
    else if toks[a].token == "access" then Ok(Stmt(PyValue(Dead), st, a))
    else if !H.IsIdToken(toks[a].token) then Fail(ParserError, ExpectImmo)
    else
      var la := H.NextNonSpace(toks, a + 1);
      if la.Some? && la.value.token == ":" then ImmoVarAt(toks, st, a)
      else Fail(ParserError, "bruh")
  }

  /** `parse_immo_var()`: a name not yet defined, bound to its value and recorded
      as immutable. */
  function ImmoVarAt(toks: seq<Token>, st: Store, p: nat): (r: Result<Stmt>)
    requires p <= |toks|
    ensures r.Ok? ==> p < r.value.pos <= |toks|
  {
    if p == |toks| then Err(H.NoneLexeme)
    else
      var name := toks[p].lexeme;
      if name in st.vars then Fail(ParserError, AlreadyDefinedVar(name))
      else ImmoValueAt(toks, st, name, p)
  }

  /** The value of the immutable `name` read at `p`, and its definition. */
  function ImmoValueAt(toks: seq<Token>, st: Store, name: string, p: nat): (r: Result<Stmt>)
    requires p < |toks|
    ensures r.Ok? ==> p < r.value.pos <= |toks|
  {
    var v :- ExpectValueAt(toks, st, ExpectImmoColon, H.PastSpaces(toks, p + 1));
    Ok(Stmt(ImmoVarDec(Identifier(name), v.node), st.(vars := st.vars[name := v.value], immo := st.immo + {name}), v.pos))
  }

  // ---- play blocks and the program --------------------------------------------------

  /** The outcome of a part of the program and the symbol table afterwards, which
      keeps the definitions made before an exception. */
  datatype Run<T> = Run(out: Result<T>, store: Store)

  /** Statements (or play blocks) parsed and the position afterwards. */
  datatype Block = Block(stmts: seq<Node>, pos: nat)

  /** The `while` loop of `parse_func` over the statements of a body. */
  function BodyLoop(toks: seq<Token>, st: Store, acc: seq<Node>, p: nat): (r: Run<Block>)
    requires p <= |toks|
    ensures r.out.Ok? ==> p <= r.out.value.pos <= |toks|
    ensures r.out.Ok? ==> r.out.value.pos == |toks| || toks[r.out.value.pos].token == "}"
    decreases |toks| - p
  {
    if p < |toks| && toks[p].token != "}" then
      match StmtAt(toks, st, p)
      case Err(e) => Run(Err(e), st)
      case Ok(s) => BodyLoop(toks, s.store, acc + [s.node], N.PastWhitespace(toks, s.pos))
    else Run(Ok(Block(acc, p)), st)
  }

  /** `parse_func()`: a `play` block, its statements and the closing `}`. */
  function FuncAt(toks: seq<Token>, st: Store, p: nat): (r: Run<Parsed>)
    requires p <= |toks|
    ensures r.out.Ok? ==> p < r.out.value.pos <= |toks|
  {
    var q := N.PastWhitespace(toks, p);
    if !H.At(toks, q, "play") then Run(Fail(ParserError, ExpectPlay), st)
    else
      var body := BodyLoop(toks, st, [], N.BodyStart(toks, q));
      if body.out.Err? then Run(Err(body.out.exc), body.store)
      else if !H.At(toks, body.out.value.pos, "}") then Run(Err(ExpectFailure(CloseBody)), body.store)
      else Run(Ok(H.Parsed(PlayFunc(BlockStmt(body.out.value.stmts)), body.out.value.pos + 1)), body.store)
  }

  /** The `while` loop of `produce_ast`: play blocks until `gameOver` or the end; the
      token after each block's `}` is skipped unread. */
  function ProgramLoop(toks: seq<Token>, st: Store, acc: seq<Node>, p: nat): (r: Run<seq<Node>>)
    requires p <= |toks|
    decreases |toks| - p
  {
    if p < |toks| && toks[p].token != "gameOver" then
      var f := FuncAt(toks, st, p);
      if f.out.Err? then Run(Err(f.out.exc), f.store)
      else ProgramLoop(toks, f.store, acc + [f.out.value.node], H.Next(toks, f.out.value.pos))
    else Run(Ok(acc), st)
  }

  /** The exceptions `produce_ast` catches. */
  predicate Caught(k: ExcKind) {
    k == ParserError || k == SemanticError || k == SymbolTableError
  }

  /** What `produce_ast` returns: the program or the exception caught, with the table. */
  datatype Produced = Produced(ast: Result<Node>, store: Store)

  /** `produce_ast()` from a cursor at `p` and a table: the three parser, semantic and
      symbol-table exceptions are returned as values; any other exception escapes. */
  function ProduceFrom(toks: seq<Token>, st: Store, p: nat): (r: Result<Produced>)
    requires p <= |toks|
    ensures r.Err? <==> ProgramLoop(toks, st, [], p).out.Err? && !Caught(ProgramLoop(toks, st, [], p).out.exc.kind)
    ensures r.Ok? && r.value.ast.Err? ==> Caught(r.value.ast.exc.kind)
  {
    var b := ProgramLoop(toks, st, [], p);
    if b.out.Err? then
      if Caught(b.out.exc.kind) then Ok(Produced(Err(b.out.exc), b.store)) else Err(b.out.exc)
    else Ok(Produced(Ok(Program(b.out.value)), b.store))
  }

  /** `Semantic(tokens).produce_ast()`. */
  function ProduceAst(toks: seq<Token>): Result<Produced> {
    ProduceFrom(toks, EmptyStore, 0)
  }

  // ---- the analyser ---------------------------------------------------------------

  class Semantic {
    const tokens: seq<Token>
    var currentTokenIndex: nat
    var currentToken: Option<Token>
    var symbolTable: Store

    /** The current token is the one before `current_token_index`, or `None` once
        the tokens are used up. */
    ghost predicate Valid()
      reads this
    {
      && currentTokenIndex <= |tokens|
      && (currentToken.Some? ==> 1 <= currentTokenIndex && currentToken.value == tokens[currentTokenIndex - 1])
      && (currentToken.None? ==> currentTokenIndex == |tokens|)
    }

    /** The position of the current token; `|tokens|` stands for `None`. */
    ghost function Pos(): nat
      reads this
      requires Valid()
    {
      if currentToken.Some? then currentTokenIndex - 1 else |tokens|
    }

    /** An expression method returned `r` and left the cursor where `s` says. */
    ghost predicate Yields(r: Result<Node>, s: Result<Parsed>)
      reads this
      requires Valid()
    {
      match s
      case Ok(v) => r == Ok(v.node) && Pos() == v.pos
      case Err(e) => r == Err(e)
    }

    /** A statement method returned `r` and left the cursor and the table where `s`
        says; after an exception `produce_ast` catches, the table is still `t0`. */
    ghost predicate YieldsStmt(r: Result<Node>, s: Result<Stmt>, t0: Store)
      reads this
      requires Valid()
    {
      match s
      case Ok(v) => r == Ok(v.node) && Pos() == v.pos && symbolTable == v.store
      case Err(e) => r == Err(e) && (Caught(e.kind) ==> symbolTable == t0)
    }

    /** The body loop returned `r` and left the cursor and the table where `s` says. */
    ghost predicate YieldsBlock(r: Result<seq<Node>>, s: Run<Block>)
      reads this
      requires Valid()
    {
      match s.out
      case Ok(v) => r == Ok(v.stmts) && Pos() == v.pos && symbolTable == s.store
      case Err(e) => r == Err(e) && (Caught(e.kind) ==> symbolTable == s.store)
    }

    /** `parse_func` returned `r` and left the cursor and the table where `s` says. */
    ghost predicate YieldsRun(r: Result<Node>, s: Run<Parsed>)
      reads this
      requires Valid()
    {
      match s.out
      case Ok(v) => r == Ok(v.node) && Pos() == v.pos && symbolTable == s.store
      case Err(e) => r == Err(e) && (Caught(e.kind) ==> symbolTable == s.store)
    }

    constructor (tokens: seq<Token>)
      ensures Valid() && Pos() == 0 && symbolTable == EmptyStore
      ensures this.tokens == tokens
    {
      this.tokens := tokens;
      currentTokenIndex := 0;
      currentToken := None;
      symbolTable := EmptyStore;
      new;
      currentToken := GetNextToken();
    }

    /** `get_next_token()`: the tokens in order, then `None` for ever. */
    method GetNextToken() returns (t: Option<Token>)
      requires currentTokenIndex <= |tokens|
      modifies this`currentTokenIndex
      ensures old(currentTokenIndex) < |tokens| ==>
        t == Some(tokens[old(currentTokenIndex)]) && currentTokenIndex == old(currentTokenIndex) + 1
      ensures old(currentTokenIndex) == |tokens| ==> t == None && currentTokenIndex == old(currentTokenIndex)
    {
      if currentTokenIndex < |tokens| {
        t := Some(tokens[currentTokenIndex]);
        currentTokenIndex := currentTokenIndex + 1;
      } else {
        t := None;
      }
    }

    /** The statement `self.current_token = self.get_next_token()`. */
    method Consume()
      requires Valid()
      modifies this`currentTokenIndex, this`currentToken
      ensures Valid() && Pos() == H.Next(tokens, old(Pos()))
    {
      currentToken := GetNextToken();
    }

    /** The current token eaten, then `skip_whitespace()`. */
    method ConsumeAndSkip()
      requires Valid()
      modifies this`currentTokenIndex, this`currentToken
      ensures Valid() && Pos() == N.PastWhitespace(tokens, H.Next(tokens, old(Pos())))
    {
      Consume();
      SkipWhitespace();
    }

    /** The current token eaten, then `skip_spaces()`. */
    method ConsumeAndSkipSpaces()
      requires Valid()
      modifies this`currentTokenIndex, this`currentToken
      ensures Valid() && Pos() == H.PastSpaces(tokens, H.Next(tokens, old(Pos())))
    {
      Consume();
      SkipSpaces();
    }

    /** `skip_whitespace()`. */
    method SkipWhitespace()
      requires Valid()
      modifies this`currentTokenIndex, this`currentToken
      ensures Valid() && Pos() == N.PastWhitespace(tokens, old(Pos()))
    {
      while currentToken.Some? && (currentToken.value.token == N.NEWLINE || currentToken.value.token == N.SPACE)
        invariant Valid() && old(Pos()) <= Pos()
        invariant N.PastWhitespace(tokens, Pos()) == N.PastWhitespace(tokens, old(Pos()))
        decreases |tokens| - Pos()
      {
        Consume();
      }
    }

    /** `skip_spaces()`. */
    method SkipSpaces()
      requires Valid()
      modifies this`currentTokenIndex, this`currentToken
      ensures Valid() && Pos() == H.PastSpaces(tokens, old(Pos()))
    {
      while currentToken.Some? && currentToken.value.token == N.SPACE
        invariant Valid() && old(Pos()) <= Pos()
        invariant H.PastSpaces(tokens, Pos()) == H.PastSpaces(tokens, old(Pos()))
        decreases |tokens| - Pos()
      {
        Consume();
      }
    }

    /** `expect(token_type, error_message)`: the cursor moves on whether or not the
        current token is the one expected. */
    method Expect(tokenType: string, message: string) returns (r: Result<()>)
      requires Valid()
      modifies this`currentTokenIndex, this`currentToken
      ensures Valid() && Pos() == H.Next(tokens, old(Pos()))
      ensures r.Ok? <==> H.At(tokens, old(Pos()), tokenType)
      ensures r.Err? ==> r.exc == ExpectFailure(message)
    {
      var prev := currentToken;
      Consume();
      if prev.None? || prev.value.token != tokenType {
        return Err(ExpectFailure(message));
      }
      r := Ok(());
    }

    /** `look_ahead()`: the first non-space token from `current_token_index` on, the
        cursor unmoved. */
    method LookAhead() returns (t: Option<Token>)
      requires currentTokenIndex <= |tokens|
      ensures t == H.NextNonSpace(tokens, currentTokenIndex)
    {
      var i := currentTokenIndex;
      while i < |tokens|
        invariant currentTokenIndex <= i <= |tokens|
        invariant H.NextNonSpace(tokens, i) == H.NextNonSpace(tokens, currentTokenIndex)
        decreases |tokens| - i
      {
        if tokens[i].token != N.SPACE {
          return Some(tokens[i]);
        }
        i := i + 1;
      }
      t := None;
    }

    /** `produce_ast()`: play blocks until `gameOver`; the three exceptions it
        catches are returned with the table. */
    method ProduceAst() returns (r: Result<Produced>)
      requires Valid()
      modifies this
      ensures Valid() && r == ProduceFrom(tokens, old(symbolTable), old(Pos()))
    {
      ghost var p0 := Pos();
      var body: seq<Node> := [];
      while currentToken.Some? && currentToken.value.token != "gameOver"
        invariant Valid()
        invariant ProgramLoop(tokens, symbolTable, body, Pos()) == ProgramLoop(tokens, old(symbolTable), [], p0)
        decreases |tokens| - Pos()
      {
        ghost var q := Pos();
        var f := ParseFunc();
        if f.Err? {
          if Caught(f.exc.kind) {
            return Ok(Produced(Err(f.exc), symbolTable));
          }
          return Err(f.exc);
        }
        body := body + [f.value];
        Consume();
        assert Pos() > q;
      }
      r := Ok(Produced(Ok(Program(body)), symbolTable));
    }

    /** `parse_func()`. */
    method ParseFunc() returns (r: Result<Node>)
      requires Valid()
      modifies this
      ensures Valid() && YieldsRun(r, FuncAt(tokens, old(symbolTable), old(Pos())))
    {
      SkipWhitespace();
      if currentToken.None? || currentToken.value.token != "play" {
        return Fail(ParserError, ExpectPlay);
      }
      EnterBody();
      ghost var goal := BodyLoop(tokens, symbolTable, [], Pos());
      var body := ParseBody();
      if body.Err? {
        return Err(body.exc);
      }
      assert goal.out.Ok? && Pos() == goal.out.value.pos;
      var closed := Expect("}", CloseBody);
      if closed.Err? {
        return Err(closed.exc);
      }
      r := Ok(PlayFunc(BlockStmt(body.value)));
    }

    /** The header of a play block, `play`, `(`, `)` and `{`, read unchecked. */
    method EnterBody()
      requires Valid() && Pos() < |tokens|
      modifies this`currentTokenIndex, this`currentToken
      ensures Valid() && Pos() == N.BodyStart(tokens, old(Pos()))
    {
      Consume();
      ConsumeAndSkip();
      ConsumeAndSkip();
      Consume();
    }

    /** The `while` loop of `parse_func` over the statements of a body. */
    method ParseBody() returns (r: Result<seq<Node>>)
      requires Valid()
      modifies this
      ensures Valid() && YieldsBlock(r, BodyLoop(tokens, old(symbolTable), [], old(Pos())))
    {
      ghost var goal := BodyLoop(tokens, symbolTable, [], Pos());
      var body: seq<Node> := [];
      while currentToken.Some? && currentToken.value.token != "}"
        invariant Valid()
        invariant BodyLoop(tokens, symbolTable, body, Pos()) == goal
        decreases |tokens| - Pos()
      {
        ghost var before := symbolTable;
        var s := ParseStmt();
        if s.Err? {
          assert goal == Run(Err(s.exc), before);
          return Err(s.exc);
        }
        body := body + [s.value];
        SkipWhitespace();
      }
      r := Ok(body);
    }

    /** `parse_stmt()`. */
    method ParseStmt() returns (r: Result<Node>)
      requires Valid()
      modifies this
      ensures Valid() && YieldsStmt(r, StmtAt(tokens, old(symbolTable), old(Pos())), old(symbolTable))
    {
      SkipWhitespace();
      if currentToken.None? {
        r := Err(H.NoneToken);
      } else if H.IsIdToken(currentToken.value.token) {
        r := ParseIdStmt();
      } else {
        r := ParseKeywordStmt();
      }
    }

    /** The statements `parse_stmt` selects after an identifier. */
    method ParseIdStmt() returns (r: Result<Node>)
      requires Valid() && currentToken.Some?
      modifies this
      ensures Valid() && YieldsStmt(r, IdStmtAt(tokens, old(symbolTable), old(Pos())), old(symbolTable))
    {
      var la := LookAhead();
      assert currentTokenIndex == Pos() + 1;
      ghost var goal := IdStmtAt(tokens, symbolTable, Pos());
      if la.None? {
        r := Err(H.NoneToken);
      } else if la.value.token == ":" || la.value.token == "," {
        assert goal == VarInitAt(tokens, symbolTable, Pos());
        r := ParseVarInit();
      } else if la.value.token == "[" {
        assert goal == ArrayAt(tokens, symbolTable, Pos());
        r := ParseArray();
      } else if la.value.token == "." {
        assert goal == InstAssignAt(tokens, symbolTable, Pos());
        r := ParseInstAss();
      } else {
        r := Fail(ParserError, Unexpected + la.value.token);
      }
    }

    /** The statements `parse_stmt` selects by a keyword. */
    method ParseKeywordStmt() returns (r: Result<Node>)
      requires Valid() && currentToken.Some?
      modifies this
      ensures Valid() && YieldsStmt(r, KeywordStmtAt(tokens, old(symbolTable), old(Pos())), old(symbolTable))
    {
      var t := currentToken.value.token;
      if t == "hp" || t == "xp" || t == "comms" || t == "flag" {
        r := VarOrArr();
      } else if t == "build" {
        r := ParseStruct();
      } else if t == "access" {
        r := ParseStructInst();
      } else if t == "immo" {
        r := ParseImmo();
      } else {
        r := Fail(ParserError, Unexpected + t);
      }
    }

    // ---- variables

    /** `var_or_arr()`. */
    method VarOrArr() returns (r: Result<Node>)
      requires Valid() && currentToken.Some?
      modifies this
      ensures Valid() && YieldsStmt(r, VarOrArrayAt(tokens, old(symbolTable), old(Pos())), old(symbolTable))
    {
      var dt := currentToken.value.token;
      ConsumeAndSkip();
      if currentToken.None? || !H.IsIdToken(currentToken.value.token) {
        return Fail(ParserError, ExpectVariable);
      }
      var la := LookAhead();
      if la.Some? && la.value.token == "[" {
        r := ParseEmptyArray(dt);
      } else {
        r := ParseVarDec(dt);
      }
    }

    /** `parse_var_init()`: the first name, the loop over further names, then the
        shared value or the pairs. */
    method ParseVarInit() returns (r: Result<Node>)
      requires Valid()
      modifies this
      ensures Valid() && YieldsStmt(r, VarInitAt(tokens, old(symbolTable), old(Pos())), old(symbolTable))
    {
      ghost var p := Pos();
      SkipWhitespace();
      if currentToken.None? {
        return Err(H.NoneLexeme);
      }
      ghost var q := Pos();
      var first := [currentToken.value.lexeme];
      ConsumeAndSkip();
      ghost var scan := NamesLoop(tokens, first, Pos());
      var names := ParseNames(first);
      if names.Err? {
        assert scan == Err(names.exc);
        return Err(names.exc);
      }
      assert scan == Ok(Names(names.value.0, names.value.1, Pos()));
      VarInitValues(tokens, symbolTable, p, q, Names(names.value.0, names.value.1, Pos()));
      r := ParseInitValues(names.value.0, names.value.1);
    }

    /** The values after the names of `parse_var_init`. */
    method ParseInitValues(names: seq<string>, shared: bool) returns (r: Result<Node>)
      requires Valid() && |names| >= 1
      modifies this
      ensures Valid() && YieldsStmt(r, InitValuesAt(tokens, old(symbolTable), Names(names, shared, old(Pos()))), old(symbolTable))
    {
      if shared {
        r := ParseShared(names);
      } else {
        r := ParsePairs(names);
      }
    }

    /** The names `r` read are the ones `s` says, and the cursor is after them. */
    ghost predicate YieldsNames(r: Result<(seq<string>, bool)>, s: Result<Names>)
      reads this
      requires Valid()
    {
      match s
      case Ok(ns) => r == Ok((ns.names, ns.shared)) && Pos() == ns.pos
      case Err(e) => r == Err(e)
    }

    /** The first `while` loop of `parse_var_init`: the names, and whether the
        loop stopped at `:` after a name. */
    method ParseNames(names: seq<string>) returns (r: Result<(seq<string>, bool)>)
      requires Valid()
      modifies this`currentTokenIndex, this`currentToken
      ensures Valid()
      ensures YieldsNames(r, NamesLoop(tokens, names, old(Pos())))
    {
      ghost var goal := NamesLoop(tokens, names, Pos());
      var ns := names;
      while currentToken.Some? && currentToken.value.token == ","
        invariant Valid() && NamesLoop(tokens, ns, Pos()) == goal
        decreases |tokens| - Pos()
      {
        var n := ParseNameAfterComma();
        if n.Err? {
          return Err(n.exc);
        }
        ns := ns + [n.value];
        if currentToken.Some? && currentToken.value.token == ":" {
          ConsumeAndSkip();
          return Ok((ns, true));
        }
      }
      ConsumeAndSkip();
      r := Ok((ns, false));
    }

    /** The `,` at the cursor, whitespace, an identifier and whitespace. */
    method ParseNameAfterComma() returns (r: Result<string>)
      requires Valid() && currentToken.Some?
      modifies this`currentTokenIndex, this`currentToken
      ensures Valid()
      ensures match NameAfterComma(tokens, old(Pos()))
        case Ok(n) => r == Ok(n.name) && Pos() == n.pos
        case Err(e) => r == Err(e)
    {
      ConsumeAndSkip();
      if currentToken.None? || !H.IsIdToken(currentToken.value.token) {
        return Fail(ParserError, ExpectNameAfterComma);
      }
      r := Ok(currentToken.value.lexeme);
      ConsumeAndSkip();
    }

    /** `define_def_variable(var, value)` for each name. */
    method DefineAll(names: seq<string>, value: Value)
      modifies this`symbolTable
      ensures symbolTable == old(symbolTable).(vars := DefineEach(old(symbolTable).vars, names, value))
    {
      var i := 0;
      while i < |names|
        invariant 0 <= i <= |names|
        invariant symbolTable == old(symbolTable).(vars := symbolTable.vars)
        invariant DefineEach(symbolTable.vars, names[i..], value) == DefineEach(old(symbolTable).vars, names, value)
      {
        assert names[i..][1..] == names[i + 1..];
        symbolTable := symbolTable.(vars := symbolTable.vars[names[i] := value]);
        i := i + 1;
      }
    }

    /** `a, b, ...: value` in `parse_var_init`. */
    method ParseShared(names: seq<string>) returns (r: Result<Node>)
      requires Valid()
      modifies this
      ensures Valid() && YieldsStmt(r, SharedAt(tokens, old(symbolTable), names, old(Pos())), old(symbolTable))
    {
      var parsed := ParseValue();
      if parsed.Err? {
        return Err(parsed.exc);
      }
      var value, evaluated := parsed.value.0, parsed.value.1;
      DefineAll(names, evaluated);
      SkipWhitespace();
      r := Ok(BatchVarDec(Declarations(names, value)));
    }

    /** The first value after `:` and the second `while` loop of `parse_var_init`. */
    method ParsePairs(names: seq<string>) returns (r: Result<Node>)
      requires Valid() && |names| >= 1
      modifies this
      ensures Valid() && YieldsStmt(r, PairsAt(tokens, old(symbolTable), names, old(Pos())), old(symbolTable))
    {
      var parsed := ParseValue();
      if parsed.Err? {
        return Err(parsed.exc);
      }
      var value, first := parsed.value.0, parsed.value.1;
      var valuesTable: ValuesTable := map[names[0] := (value, first)];
      ghost var goal := PairsLoop(tokens, symbolTable, names, valuesTable, first, Pos());
      var ns := names;
      while currentToken.Some? && currentToken.value.token == ","
        invariant Valid() && symbolTable == old(symbolTable)
        invariant |ns| >= 1 && ns[0] == names[0] && ns[0] in valuesTable
        invariant PairsLoop(tokens, symbolTable, ns, valuesTable, first, Pos()) == goal
        decreases |tokens| - Pos()
      {
        var pair := ParsePair(first);
        if pair.Err? {
          return Err(pair.exc);
        }
        var name, v, e := pair.value.0, pair.value.1, pair.value.2;
        valuesTable := valuesTable[name := (v, e)];
        ns := ns + [name];
      }
      SkipWhitespace();
      r := DefineInit(ns, valuesTable, Pos());
    }

    /** One `, name: value` pair of the second loop of `parse_var_init`. */
    method ParsePair(first: Value) returns (r: Result<(string, Node, Value)>)
      requires Valid() && currentToken.Some?
      modifies this`currentTokenIndex, this`currentToken
      ensures Valid()
      ensures match PairAt(tokens, symbolTable, first, old(Pos()))
        case Ok(x) => r == Ok((x.name, x.node, x.value)) && Pos() == x.pos
        case Err(e) => r == Err(e)
    {
      var name := ParseNameAfterComma();
      if name.Err? {
        return Err(name.exc);
      }
      var parsed := ParseColonValue(ExpectColon);
      if parsed.Err? {
        return Err(parsed.exc);
      }
      var v, e := parsed.value.0, parsed.value.1;
      if !SameType(e, first) {
        return Fail(SemanticError, TypeMismatch(first, e, name.value));
      }
      r := Ok((name.value, v, e));
    }

    /** The end of `parse_var_init`. */
    method DefineInit(names: seq<string>, valuesTable: ValuesTable, ghost e: nat) returns (r: Result<Node>)
      requires Valid() && Pos() == e && |names| >= 1 && names[0] in valuesTable
      modifies this`symbolTable
      ensures Valid() && YieldsStmt(r, InitEnd(old(symbolTable), names, valuesTable, e), old(symbolTable))
    {
      if |names| > 1 {
        var i := 0;
        while i < |names|
          invariant 0 <= i <= |names|
          invariant symbolTable == old(symbolTable).(vars := symbolTable.vars)
          invariant DefineFrom(symbolTable.vars, names[i..], valuesTable) == DefineFrom(old(symbolTable).vars, names, valuesTable)
          invariant forall k :: 0 <= k < i ==> names[k] in valuesTable
        {
          assert names[i..][1..] == names[i + 1..];
          if names[i] !in valuesTable {
            return Fail(KeyError, "'" + names[i] + "'");
          }
          symbolTable := symbolTable.(vars := symbolTable.vars[names[i] := valuesTable[names[i]].1]);
          i := i + 1;
        }
        r := Ok(BatchVarDec(DeclarationsFrom(names, valuesTable)));
      } else {
        var name := names[0];
        var existed := name in symbolTable.vars;
        var defined := SymbolTable.Define(symbolTable.vars, name, valuesTable[name].1);
        if defined.Err? {
          return Err(defined.exc);
        }
        symbolTable := symbolTable.(vars := defined.value);
        if existed {
          r := Ok(VarAssignment(Identifier(name), ":", valuesTable[name].0));
        } else {
          r := Ok(VarDec(Identifier(name), valuesTable[name].0));
        }
      }
    }

    /** `parse_var_dec(dt)`: the `while True` loop over the names. */
    method ParseVarDec(dt: string) returns (r: Result<Node>)
      requires Valid()
      modifies this
      ensures Valid() && YieldsStmt(r, VarDecAt(tokens, old(symbolTable), dt, old(Pos()), []), old(symbolTable))
    {
      if currentToken.None? {
        return Err(H.NoneLexeme);
      }
      var names := [currentToken.value.lexeme];
      assert names == [] + [tokens[old(Pos())].lexeme];
      ConsumeAndSkipSpaces();
      while currentToken.Some? && currentToken.value.token == ","
        invariant Valid() && |names| >= 1 && symbolTable == old(symbolTable)
        invariant VarDecNext(tokens, symbolTable, dt, names, Pos()) == VarDecAt(tokens, symbolTable, dt, old(Pos()), [])
        decreases |tokens| - Pos()
      {
        ConsumeAndSkip();
        if currentToken.None? {
          return Err(H.NoneLexeme);
        }
        names := names + [currentToken.value.lexeme];
        ConsumeAndSkipSpaces();
      }
      r := DeclareVars(dt, names);
    }

    /** The end of `parse_var_dec`. */
    method DeclareVars(dt: string, names: seq<string>) returns (r: Result<Node>)
      requires Valid() && |names| >= 1
      modifies this
      ensures Valid() && YieldsStmt(r, VarDecEnd(tokens, old(symbolTable), dt, names, old(Pos())), old(symbolTable))
    {
      var value: Value := Dead;
      if currentToken.Some? && currentToken.value.token == N.NEWLINE {
        var d := DefaultValue(dt);
        if d.Err? {
          return Err(d.exc);
        }
        value := d.value;
        DefineAll(names, value);
      } else if currentToken.Some? && currentToken.value.token == ":" {
        ConsumeAndSkip();
        if currentToken.None? || currentToken.value.token != "dead" {
          return Fail(ParserError, ExpectDead);
        }
        Consume();
        DefineAll(names, Dead);
      }
      SkipWhitespace();
      r := Ok(Decs(names, PyValue(value)));
    }

    // ---- arrays

    /** The `while '['` loop of `parse_empty_array` (`spacesOnly`) and of
        `parse_array`. */
    method ParseDims(spacesOnly: bool) returns (r: Result<seq<Option<int>>>)
      requires Valid()
      modifies this`currentTokenIndex, this`currentToken
      ensures Valid()
      ensures match DimsLoop(tokens, [], old(Pos()), spacesOnly)
        case Ok(d) => r == Ok(d.dims) && Pos() == d.pos
        case Err(e) => r == Err(e)
    {
      ghost var goal := DimsLoop(tokens, [], Pos(), spacesOnly);
      var dims: seq<Option<int>> := [];
      while currentToken.Some? && currentToken.value.token == "["
        invariant Valid() && DimsLoop(tokens, dims, Pos(), spacesOnly) == goal
        decreases |tokens| - Pos()
      {
        var size := ParseDim(spacesOnly);
        if size.Err? {
          return Err(size.exc);
        }
        dims := dims + [size.value];
      }
      r := Ok(dims);
    }

    /** One dimension of `ParseDims`. */
    method ParseDim(spacesOnly: bool) returns (r: Result<Option<int>>)
      requires Valid() && currentToken.Some?
      modifies this`currentTokenIndex, this`currentToken
      ensures Valid()
      ensures match DimAt(tokens, old(Pos()), spacesOnly)
        case Ok(d) => r == Ok(d.size) && Pos() == d.pos
        case Err(e) => r == Err(e)
    {
      r := ParseSize();
      if r.Err? {
        return;
      }
      var closed := Expect("]", CloseDimension);
      if closed.Err? {
        return Err(closed.exc);
      }
      if spacesOnly {
        SkipSpaces();
      } else {
        SkipWhitespace();
      }
    }

    /** The size part of `ParseDim`. */
    method ParseSize() returns (r: Result<Option<int>>)
      requires Valid() && currentToken.Some?
      modifies this`currentTokenIndex, this`currentToken
      ensures Valid()
      ensures match SizeAt(tokens, old(Pos()))
        case Ok(d) => r == Ok(d.size) && Pos() == d.pos
        case Err(e) => r == Err(e)
    {
      ConsumeAndSkip();
      if currentToken.Some? && currentToken.value.token == "hp_ltr" {
        var n := Decimal.PyInt(currentToken.value.lexeme);
        if n.Err? {
          return Err(n.exc);
        }
        ConsumeAndSkip();
        r := Ok(Some(n.value));
      } else {
        r := Ok(None);
      }
    }

    /** `parse_empty_array(dt)`. */
    method ParseEmptyArray(dt: string) returns (r: Result<Node>)
      requires Valid() && currentToken.Some?
      modifies this
      ensures Valid() && YieldsStmt(r, EmptyArrayAt(tokens, old(symbolTable), dt, old(Pos())), old(symbolTable))
    {
      var name := currentToken.value.lexeme;
      ConsumeAndSkip();
      var dims := ParseDims(true);
      if dims.Err? {
        return Err(dims.exc);
      }
      r := DeclareEmptyArray(dt, name, dims.value);
    }

    /** The end of `parse_empty_array`. */
    method DeclareEmptyArray(dt: string, name: string, dims: seq<Option<int>>) returns (r: Result<Node>)
      requires Valid()
      modifies this
      ensures Valid() && YieldsStmt(r, EmptyArrayEnd(tokens, old(symbolTable), dt, name, dims, old(Pos())), old(symbolTable))
    {
      if currentToken.Some? && currentToken.value.token == N.NEWLINE {
        var literal := DefaultNode(dt);
        if literal.Err? {
          return Err(literal.exc);
        }
        if |dims| == 0 {
          return Err(IndexOutOfRange);
        }
        var values := EmptyShape(dims, Leaf(literal.value), (cs: seq<Cell>) => Row(cs));
        var evalValues := EmptyShape(dims, One(Interpreter.LiteralValue(literal.value)), (es: seq<Elem>) => Many(es));
        symbolTable := symbolTable.(arrays := symbolTable.arrays[name := ArrayRec(dims, Some(evalValues), Some(dt), true)]);
        r := Ok(ArrayDec(Identifier(name), dims, SomeCells(values), None, None));
      } else if currentToken.Some? && currentToken.value.token == ":" {
        ConsumeAndSkipSpaces();
        var dead := Expect("dead", ExpectDead);
        if dead.Err? {
          return Err(dead.exc);
        }
        if |dims| == 0 {
          return Err(IndexOutOfRange);
        }
        if Sized(dims) {
          return Fail(ParserError, NullPointer);
        }
        symbolTable := symbolTable.(arrays := symbolTable.arrays[name := ArrayRec(dims, None, Some(dt), true)]);
        r := Ok(ArrayDec(Identifier(name), dims, NoCells, None, None));
      } else {
        r := Ok(ArrayDec(Identifier(name), dims, SomeCells([]), None, None));
      }
    }

    /** `parse_array()`. */
    method ParseArray() returns (r: Result<Node>)
      requires Valid()
      modifies this
      ensures Valid() && YieldsStmt(r, ArrayAt(tokens, old(symbolTable), old(Pos())), old(symbolTable))
    {
      var head := ParseArrayHead();
      if head.Err? {
        return Err(head.exc);
      }
      r := ArrayStatement(head.value.0, head.value.1);
    }

    /** `parse_array` up to the `:` and the whitespace after it. */
    method ParseArrayHead() returns (r: Result<(string, seq<Option<int>>)>)
      requires Valid()
      modifies this`currentTokenIndex, this`currentToken
      ensures Valid()
      ensures YieldsHead(r, ArrayHeadAt(tokens, old(Pos())))
    {
      ghost var goal := ArrayHeadAt(tokens, Pos());
      SkipWhitespace();
      if currentToken.None? {
        return Err(H.NoneLexeme);
      }
      var name := currentToken.value.lexeme;
      ConsumeAndSkip();
      assert goal == DimsColonAt(tokens, name, Pos());
      r := ParseDimsColon(name);
    }

    /** The header `r` read is the one `s` says, and the cursor is after it. */
    ghost predicate YieldsHead(r: Result<(string, seq<Option<int>>)>, s: Result<ArrayHead>)
      reads this
      requires Valid()
    {
      match s
      case Ok(h) => r == Ok((h.name, h.dims)) && Pos() == h.pos
      case Err(e) => r == Err(e)
    }

    /** The dimensions of the array `name` and the `:` after them. */
    method ParseDimsColon(name: string) returns (r: Result<(string, seq<Option<int>>)>)
      requires Valid()
      modifies this`currentTokenIndex, this`currentToken
      ensures Valid()
      ensures YieldsHead(r, DimsColonAt(tokens, name, old(Pos())))
    {
      var dims := ParseDims(false);
      if dims.Err? {
        return Err(dims.exc);
      }
      var colon := Expect(":", ExpectArrayColon);
      if colon.Err? {
        return Err(colon.exc);
      }
      SkipWhitespace();
      r := Ok((name, dims.value));
    }

    /** `parse_array` after the `:`: what `check_array`, `check_dead_array` and
        `get_array_dimensions` say about the name selects the statement. */
    method ArrayStatement(name: string, dims: seq<Option<int>>) returns (r: Result<Node>)
      requires Valid()
      modifies this
      ensures Valid() && YieldsStmt(r, ArrayBody(tokens, old(symbolTable), name, dims, old(Pos())), old(symbolTable))
    {
      if name in symbolTable.arrays {
        var existing := symbolTable.arrays[name].dims;
        if symbolTable.arrays[name].dead {
          if |existing| != |dims| {
            return Fail(ParserError, IncorrectDims(name));
          }
          r := DefineArray(name, dims);
        } else if AllSized(dims) {
          if |existing| != |dims| {
            return Fail(ParserError, IncorrectDims(name));
          }
          var inBounds := CheckBounds(name, dims, existing);
          if inBounds.Err? {
            return Err(inBounds.exc);
          }
          var parsed := ParseValue();
          if parsed.Err? {
            return Err(parsed.exc);
          }
          var value, evaluated := parsed.value.0, parsed.value.1;
          symbolTable := ModifyArray(symbolTable, name, dims, evaluated);
          r := Ok(ArrAssignment(Identifier(name), ":", value));
        } else {
          r := Fail(ParserError, AlreadyDefinedArray(name));
        }
      } else {
        r := DefineArray(name, dims);
      }
    }

    /** The `for i, dim in enumerate(dimensions)` loop of an array assignment. */
    method CheckBounds(name: string, dims: seq<Option<int>>, existing: seq<Option<int>>) returns (r: Result<()>)
      requires |dims| == |existing| && AllSized(dims)
      ensures r == Bounds(name, dims, existing, 0)
    {
      var i := 0;
      while i < |dims|
        invariant 0 <= i <= |dims|
        invariant Bounds(name, dims, existing, i) == Bounds(name, dims, existing, 0)
      {
        if existing[i].None? {
          return Fail(TypeError, "'>=' not supported between instances of 'int' and 'NoneType'");
        }
        if dims[i].value >= existing[i].value {
          return Fail(SemanticError, OutOfBounds(dims[i].value, i, name));
        }
        i := i + 1;
      }
      r := Ok(());
    }

    /** An initialiser and `define_array`. */
    method DefineArray(name: string, dims: seq<Option<int>>) returns (r: Result<Node>)
      requires Valid()
      modifies this
      ensures Valid() && YieldsStmt(r, ArrayValues(tokens, old(symbolTable), name, dims, old(Pos())), old(symbolTable))
    {
      if |dims| == 0 {
        return Err(IndexOutOfRange);
      }
      var values := ParseArrayValues(dims, 0);
      if values.Err? {
        return Err(values.exc);
      }
      var cells := values.value.0;
      if AllUnsized(dims) && |cells| == 0 {
        return Err(IndexOutOfRange);
      }
      var shape := dims;
      if AllUnsized(dims) {
        if cells[0].Row? {
          shape := [Some(|cells|), Some(|cells[0].cells|)];
        } else {
          shape := [Some(|cells|)];
        }
      }
      symbolTable := symbolTable.(arrays := symbolTable.arrays[name := ArrayRec(shape, Some(values.value.1), None, false)]);
      r := Ok(ArrayDec(Identifier(name), shape, SomeCells(cells), None, None));
    }

    /** `parse_array_values(expected_dims, depth)`. */
    method ParseArrayValues(dims: seq<Option<int>>, depth: nat) returns (r: Result<(seq<Cell>, seq<Elem>)>)
      requires Valid() && depth < |dims|
      modifies this`currentTokenIndex, this`currentToken
      ensures Valid()
      ensures match ValuesAt(tokens, symbolTable, dims, depth, old(Pos()))
        case Ok(vs) => r == Ok((vs.cells, vs.elems)) && Pos() == vs.pos
        case Err(e) => r == Err(e)
      decreases |tokens| - Pos(), 2
    {
      r := ParseValuesLoop(dims, depth);
      if r.Ok? && dims[depth].Some? && |r.value.0| != dims[depth].value {
        return Fail(SemanticError, SizeError(dims[depth].value, |r.value.0|));
      }
    }

    /** The `while` loop of `parse_array_values`. */
    method ParseValuesLoop(dims: seq<Option<int>>, depth: nat) returns (r: Result<(seq<Cell>, seq<Elem>)>)
      requires Valid() && depth < |dims|
      modifies this`currentTokenIndex, this`currentToken
      ensures Valid()
      ensures match ValuesLoop(tokens, symbolTable, dims, depth, [], [], old(Pos()))
        case Ok(vs) => r == Ok((vs.cells, vs.elems)) && Pos() == vs.pos
        case Err(e) => r == Err(e)
      decreases |tokens| - Pos(), 1
    {
      ghost var goal := ValuesLoop(tokens, symbolTable, dims, depth, [], [], Pos());
      var cells: seq<Cell> := [];
      var elems: seq<Elem> := [];
      var more := true;
      while more && currentToken.Some? && currentToken.value.token != N.NEWLINE
        invariant Valid() && old(Pos()) <= Pos()
        invariant more ==> ValuesLoop(tokens, symbolTable, dims, depth, cells, elems, Pos()) == goal
        invariant !more ==> goal == Ok(Vals(cells, elems, Pos()))
        decreases more, |tokens| - Pos()
      {
        var item := ParseArrayItem(dims, depth);
        if item.Err? {
          return Err(item.exc);
        }
        cells := cells + [item.value.0];
        elems := elems + [item.value.1];
        var last := ParseSeparator();
        if last.Err? {
          return Err(last.exc);
        }
        more := !last.value;
      }
      r := Ok((cells, elems));
    }

    /** What follows a value in `parse_array_values`; `true` at the end of the
        level. */
    method ParseSeparator() returns (r: Result<bool>)
      requires Valid()
      modifies this`currentTokenIndex, this`currentToken
      ensures Valid()
      ensures match SeparatorAt(tokens, old(Pos()))
        case Ok(e) => r == Ok(e.last) && Pos() == e.pos
        case Err(e) => r == Err(e)
    {
      SkipWhitespace();
      if currentToken.None? {
        return Err(H.NoneToken);
      }
      if currentToken.value.token == "," {
        ConsumeAndSkip();
        r := Ok(false);
      } else {
        r := Ok(true);
      }
    }

    /** One value of `parse_array_values`: a nested level or a literal. */
    method ParseArrayItem(dims: seq<Option<int>>, depth: nat) returns (r: Result<(Cell, Elem)>)
      requires Valid() && depth < |dims|
      modifies this`currentTokenIndex, this`currentToken
      ensures Valid()
      ensures match ItemAt(tokens, symbolTable, dims, depth, old(Pos()))
        case Ok(it) => r == Ok((it.cell, it.elem)) && Pos() == it.pos
        case Err(e) => r == Err(e)
      decreases |tokens| - Pos(), 0
    {
      if depth + 1 < |dims| {
        var open := Expect("[", OpenNested);
        if open.Err? {
          return Err(open.exc);
        }
        SkipWhitespace();
        var inner := ParseArrayValues(dims, depth + 1);
        if inner.Err? {
          return Err(inner.exc);
        }
        var close := Expect("]", CloseNested);
        if close.Err? {
          return Err(close.exc);
        }
        r := Ok((Row(inner.value.0), Many(inner.value.1)));
      } else {
        var parsed := ParseValue();
        if parsed.Err? {
          return Err(parsed.exc);
        }
        var value, evaluated := parsed.value.0, parsed.value.1;
        if !Interpreter.IsLiteral(value) {
          return Fail(ParserError, LiteralsOnly);
        }
        r := Ok((Leaf(value), One(evaluated)));
      }
    }

    // ---- structs

    /** `parse_struct()`. */
    method ParseStruct() returns (r: Result<Node>)
      requires Valid()
      modifies this
      ensures Valid() && YieldsStmt(r, StructAt(tokens, old(symbolTable), old(Pos())), old(symbolTable))
    {
      var name := ParseStructHead();
      if name.Err? {
        return Err(name.exc);
      }
      var fields := ParseFields();
      if fields.Err? {
        return Err(fields.exc);
      }
      ConsumeAndSkip();
      symbolTable := symbolTable.(structs := symbolTable.structs[name.value := fields.value.1]);
      r := Ok(StructDec(Identifier(name.value), fields.value.0));
    }

    /** `build`, the name and `{` of `parse_struct`. */
    method ParseStructHead() returns (r: Result<string>)
      requires Valid()
      modifies this`currentTokenIndex, this`currentToken
      ensures Valid()
      ensures match StructHeadAt(tokens, old(Pos()))
        case Ok(n) => r == Ok(n.name) && Pos() == n.pos
        case Err(e) => r == Err(e)
    {
      r := ParseKeywordName(ExpectStructName);
      if r.Err? {
        return;
      }
      var open := Expect("{", StructBraces);
      if open.Err? {
        return Err(open.exc);
      }
      SkipWhitespace();
    }

    /** A keyword, then whitespace, an identifier (`msg` otherwise) and whitespace. */
    method ParseKeywordName(msg: string) returns (r: Result<string>)
      requires Valid()
      modifies this`currentTokenIndex, this`currentToken
      ensures Valid()
      ensures match KeywordNameAt(tokens, old(Pos()), msg)
        case Ok(n) => r == Ok(n.name) && Pos() == n.pos
        case Err(e) => r == Err(e)
    {
      ConsumeAndSkip();
      if currentToken.None? || !H.IsIdToken(currentToken.value.token) {
        return Fail(ParserError, msg);
      }
      r := Ok(currentToken.value.lexeme);
      ConsumeAndSkip();
    }

    /** The `while` loop of `parse_struct` over the fields. */
    method ParseFields() returns (r: Result<(seq<Node>, seq<Field>)>)
      requires Valid()
      modifies this`currentTokenIndex, this`currentToken
      ensures Valid()
      ensures match FieldsLoop(tokens, symbolTable, [], [], old(Pos()))
        case Ok(fs) => r == Ok((fs.nodes, fs.fields)) && Pos() == fs.pos
        case Err(e) => r == Err(e)
    {
      ghost var goal := FieldsLoop(tokens, symbolTable, [], [], Pos());
      var nodes: seq<Node> := [];
      var fields: seq<Field> := [];
      while currentToken.Some? && currentToken.value.token != "}"
        invariant Valid() && FieldsLoop(tokens, symbolTable, nodes, fields, Pos()) == goal
        decreases |tokens| - Pos()
      {
        var field := ParseField(FieldNames(fields));
        if field.Err? {
          return Err(field.exc);
        }
        nodes := nodes + [field.value.0];
        fields := fields + [field.value.1];
        SkipComma();
      }
      r := Ok((nodes, fields));
    }

    /** A comma and the whitespace after it, when the current token is a comma. */
    method SkipComma()
      requires Valid()
      modifies this`currentTokenIndex, this`currentToken
      ensures Valid() && Pos() == PastComma(tokens, old(Pos()))
    {
      if currentToken.Some? && currentToken.value.token == "," {
        ConsumeAndSkip();
      }
    }

    /** One field of `parse_struct`: the datatype, the name and an optional value. */
    method ParseField(seen: seq<string>) returns (r: Result<(Node, Field)>)
      requires Valid() && currentToken.Some?
      modifies this`currentTokenIndex, this`currentToken
      ensures Valid()
      ensures match FieldAt(tokens, symbolTable, seen, old(Pos()))
        case Ok(f) => r == Ok((f.node, f.field)) && Pos() == f.pos
        case Err(e) => r == Err(e)
    {
      var head := ParseFieldName();
      if head.Err? {
        return Err(head.exc);
      }
      var dt, field := head.value.0, head.value.1;
      var parsed := ParseFieldValue();
      if parsed.Err? {
        return Err(parsed.exc);
      }
      if field in seen {
        return Fail(ParserError, DuplicateField(field));
      }
      r := Ok((StructFields(Identifier(field), parsed.value.0, None), Field(field, dt, parsed.value.1)));
    }

    /** The datatype token and the field name, each followed by whitespace. */
    method ParseFieldName() returns (r: Result<(string, string)>)
      requires Valid() && currentToken.Some?
      modifies this`currentTokenIndex, this`currentToken
      ensures Valid()
      ensures match FieldNameAt(tokens, old(Pos()))
        case Ok(h) => r == Ok((h.dtype, h.field)) && Pos() == h.pos
        case Err(e) => r == Err(e)
    {
      var dt := currentToken.value.token;
      ConsumeAndSkip();
      if currentToken.None? {
        return Err(H.NoneLexeme);
      }
      r := Ok((dt, currentToken.value.lexeme));
      ConsumeAndSkip();
    }

    /** `: value` of a field, or no value. */
    method ParseFieldValue() returns (r: Result<(Node, Value)>)
      requires Valid()
      modifies this`currentTokenIndex, this`currentToken
      ensures Valid()
      ensures match FieldValueAt(tokens, symbolTable, old(Pos()))
        case Ok(v) => r == Ok((v.node, v.value)) && Pos() == v.pos
        case Err(e) => r == Err(e)
    {
      if currentToken.None? {
        return Err(H.NoneToken);
      }
      if currentToken.value.token != ":" {
        return Ok((PyValue(Dead), Dead));
      }
      ConsumeAndSkip();
      r := ParseValue();
      if r.Ok? {
        SkipWhitespace();
      }
    }

    /** `parse_struct_inst()`. */
    method ParseStructInst() returns (r: Result<Node>)
      requires Valid()
      modifies this
      ensures Valid() && YieldsStmt(r, StructInstAt(tokens, old(symbolTable), old(Pos())), old(symbolTable))
    {
      var parent := ParseParent();
      if parent.Err? {
        return Err(parent.exc);
      }
      var name := ParseNameThenSpaces(ExpectInstance);
      if name.Err? {
        return Err(name.exc);
      }
      r := ParseInstanceValues(name.value, parent.value);
    }

    /** The values after the instance name, and `create_struct_instance`. */
    method ParseInstanceValues(name: string, parent: string) returns (r: Result<Node>)
      requires Valid() && parent in symbolTable.structs
      modifies this
      ensures Valid() && YieldsStmt(r, InstValuesAt(tokens, old(symbolTable), name, parent, old(Pos())), old(symbolTable))
    {
      var args := ParseInstArgs();
      if args.Err? {
        return Err(args.exc);
      }
      r := CreateStructInstance(name, parent, symbolTable.structs[parent], args.value.0, args.value.1, Pos());
    }

    /** `: values` after the instance name, or no values. */
    method ParseInstArgs() returns (r: Result<(seq<Node>, seq<Value>)>)
      requires Valid()
      modifies this`currentTokenIndex, this`currentToken
      ensures Valid()
      ensures match InstArgsAt(tokens, symbolTable, old(Pos()))
        case Ok(a) => r == Ok((a.nodes, a.evals)) && Pos() == a.pos
        case Err(e) => r == Err(e)
    {
      if currentToken.None? {
        return Err(H.NoneToken);
      }
      if currentToken.value.token != ":" {
        return Ok(([], []));
      }
      ConsumeAndSkipSpaces();
      r := ParseInstValues();
    }

    /** `access`, whitespace, the parent struct's name and spaces. */
    method ParseParent() returns (r: Result<string>)
      requires Valid()
      modifies this`currentTokenIndex, this`currentToken
      ensures Valid()
      ensures match ParentAt(tokens, symbolTable, old(Pos()))
        case Ok(n) => r == Ok(n.name) && Pos() == n.pos
        case Err(e) => r == Err(e)
    {
      ConsumeAndSkip();
      if currentToken.None? || !H.IsIdToken(currentToken.value.token) {
        return Fail(ParserError, ExpectParent);
      }
      var parent := currentToken.value.lexeme;
      if parent !in symbolTable.structs {
        return Fail(ParserError, UndefinedStruct(parent));
      }
      ConsumeAndSkipSpaces();
      r := Ok(parent);
    }

    /** An identifier (`msg` otherwise), then spaces. */
    method ParseNameThenSpaces(msg: string) returns (r: Result<string>)
      requires Valid()
      modifies this`currentTokenIndex, this`currentToken
      ensures Valid()
      ensures match NameThenSpaces(tokens, old(Pos()), msg)
        case Ok(n) => r == Ok(n.name) && Pos() == n.pos
        case Err(e) => r == Err(e)
    {
      if currentToken.None? || !H.IsIdToken(currentToken.value.token) {
        return Fail(ParserError, msg);
      }
      r := Ok(currentToken.value.lexeme);
      ConsumeAndSkipSpaces();
    }

    /** The `while` loop of `parse_struct_inst` over the values. */
    method ParseInstValues() returns (r: Result<(seq<Node>, seq<Value>)>)
      requires Valid()
      modifies this`currentTokenIndex, this`currentToken
      ensures Valid()
      ensures match ArgsLoop(tokens, symbolTable, [], [], old(Pos()))
        case Ok(a) => r == Ok((a.nodes, a.evals)) && Pos() == a.pos
        case Err(e) => r == Err(e)
    {
      ghost var goal := ArgsLoop(tokens, symbolTable, [], [], Pos());
      var values: seq<Node> := [];
      var evals: seq<Value> := [];
      var more := true;
      while more && currentToken.Some? && currentToken.value.token != ","
        invariant Valid() && |values| == |evals| && (!more ==> currentToken.Some?)
        invariant more ==> ArgsLoop(tokens, symbolTable, values, evals, Pos()) == goal
        invariant !more ==> goal == Ok(Args(values, evals, Pos()))
        decreases more, |tokens| - Pos()
      {
        var parsed := ParseValue();
        if parsed.Err? {
          return Err(parsed.exc);
        }
        values := values + [parsed.value.0];
        evals := evals + [parsed.value.1];
        var last := ParseArgEnd();
        if last.Err? {
          return Err(last.exc);
        }
        more := !last.value;
      }
      if currentToken.None? {
        return Err(H.NoneToken);
      }
      r := Ok((values, evals));
    }

    /** What follows a value in `parse_struct_inst`; `true` at the newline that
        ends the loop. */
    method ParseArgEnd() returns (r: Result<bool>)
      requires Valid()
      modifies this`currentTokenIndex, this`currentToken
      ensures Valid()
      ensures match ArgEndAt(tokens, old(Pos()))
        case Ok(e) => r == Ok(e.last) && Pos() == e.pos
        case Err(e) => r == Err(e)
    {
      SkipSpaces();
      if currentToken.None? {
        return Err(H.NoneToken);
      }
      if currentToken.value.token == "," {
        ConsumeAndSkipSpaces();
        if currentToken.None? {
          return Err(H.NoneToken);
        }
        if currentToken.value.token == N.NEWLINE {
          return Fail(ParserError, NewlineAfterValue);
        }
        r := Ok(false);
      } else {
        r := Ok(currentToken.value.token == N.NEWLINE);
      }
    }

    /** `create_struct_instance(...)` and `define_structinst`. */
    method CreateStructInstance(name: string, parent: string, fields: seq<Field>, values: seq<Node>, evals: seq<Value>, ghost e: nat)
      returns (r: Result<Node>)
      requires Valid() && Pos() == e && |evals| <= |values|
      modifies this`symbolTable
      ensures Valid() && YieldsStmt(r, Instance(old(symbolTable), name, parent, fields, values, evals, e), old(symbolTable))
    {
      if |evals| > |fields| {
        return Fail(ParserError, TooManyValues(parent, |fields|, |evals|));
      }
      var body: seq<Node> := [];
      var table: seq<Field> := [];
      for i := 0 to |fields|
        invariant Fill(fields, values, evals, i, body, table) == Fill(fields, values, evals, 0, [], [])
      {
        var f := fields[i];
        if i < |evals| {
          var actual := TypeNameOf(evals[i]);
          if actual != Some(f.dtype) {
            return Fail(ParserError, FieldTypeError(f.name, f.dtype, ShowTypeName(actual)));
          }
          body := body + [StructFields(PyValue(Comms(f.name)), values[i], None)];
          table := table + [Field(f.name, f.dtype, evals[i])];
        } else {
          body := body + [StructFields(PyValue(Comms(f.name)), DefaultLiteral(f.value), None)];
          table := table + [f];
        }
      }
      symbolTable := symbolTable.(insts := symbolTable.insts[name := table]);
      r := Ok(StructInst(Identifier(name), parent, body, None));
    }

    /** `parse_inst_ass()`. */
    method ParseInstAss() returns (r: Result<Node>)
      requires Valid()
      modifies this
      ensures Valid() && YieldsStmt(r, InstAssignAt(tokens, old(symbolTable), old(Pos())), old(symbolTable))
    {
      var target := ParseInstField();
      if target.Err? {
        return Err(target.exc);
      }
      var inst, field := target.value.0, target.value.1;
      var parsed := ParseExpectValue(ExpectFieldColon);
      if parsed.Err? {
        return Err(parsed.exc);
      }
      var value, evaluated := parsed.value.0, parsed.value.1;
      symbolTable := ModifyField(symbolTable, inst, field, evaluated);
      r := Ok(InstAssignment(StructInstField(Identifier(inst), Identifier(field)), ":", value));
    }

    /** `instance.field` of `parse_inst_ass`, then spaces. */
    method ParseInstField() returns (r: Result<(string, string)>)
      requires Valid()
      modifies this`currentTokenIndex, this`currentToken
      ensures Valid()
      ensures match InstFieldAt(tokens, old(Pos()))
        case Ok(t) => r == Ok((t.inst, t.field)) && Pos() == t.pos
        case Err(e) => r == Err(e)
    {
      if currentToken.None? {
        return Err(H.NoneLexeme);
      }
      var inst := currentToken.value.lexeme;
      Consume();
      if currentToken.None? {
        return Err(H.NoneToken);
      }
      if currentToken.value.token != "." {
        return Fail(ParserError, ExpectDot);
      }
      Consume();
      if currentToken.None? || !H.IsIdToken(currentToken.value.token) {
        return Fail(ParserError, ExpectField);
      }
      r := Ok((inst, currentToken.value.lexeme));
      ConsumeAndSkipSpaces();
    }

    /** `expect(":", msg)`, `skip_spaces()` and `ParseValue()`. */
    method ParseExpectValue(msg: string) returns (r: Result<(Node, Value)>)
      requires Valid()
      modifies this`currentTokenIndex, this`currentToken
      ensures Valid()
      ensures match ExpectValueAt(tokens, symbolTable, msg, old(Pos()))
        case Ok(v) => r == Ok((v.node, v.value)) && Pos() == v.pos
        case Err(e) => r == Err(e)
    {
      var colon := Expect(":", msg);
      if colon.Err? {
        return Err(colon.exc);
      }
      SkipSpaces();
      r := ParseValue();
    }

    // ---- immo

    /** `parse_immo()`. */
    method ParseImmo() returns (r: Result<Node>)
      requires Valid()
      modifies this
      ensures Valid() && YieldsStmt(r, ImmoAt(tokens, old(symbolTable), old(Pos())), old(symbolTable))
    {
      ghost var goal := ImmoAt(tokens, symbolTable, Pos());
      ConsumeAndSkipSpaces();
      if currentToken.None? {
        return Err(H.NoneToken);
      }
      if currentToken.value.token == "access" {
        return Ok(PyValue(Dead));
      }
      if !H.IsIdToken(currentToken.value.token) {
        return Fail(ParserError, ExpectImmo);
      }
      var la := LookAhead();
      assert currentTokenIndex == Pos() + 1;
      if la.Some? && la.value.token == ":" {
        assert goal == ImmoVarAt(tokens, symbolTable, Pos());
        r := ParseImmoVar();
      } else {
        r := Fail(ParserError, "bruh");
      }
    }

    /** `parse_immo_var()` and `define_immo_variable`. */
    method ParseImmoVar() returns (r: Result<Node>)
      requires Valid()
      modifies this
      ensures Valid() && YieldsStmt(r, ImmoVarAt(tokens, old(symbolTable), old(Pos())), old(symbolTable))
    {
      if currentToken.None? {
        return Err(H.NoneLexeme);
      }
      var name := currentToken.value.lexeme;
      if name in symbolTable.vars {
        return Fail(ParserError, AlreadyDefinedVar(name));
      }
      r := DefineImmo(name);
    }

    /** The value of the immutable `name` at the cursor, recorded in the table. */
    method DefineImmo(name: string) returns (r: Result<Node>)
      requires Valid() && Pos() < |tokens|
      modifies this
      ensures Valid() && YieldsStmt(r, ImmoValueAt(tokens, old(symbolTable), name, old(Pos())), old(symbolTable))
    {
      ConsumeAndSkipSpaces();
      var parsed := ParseExpectValue(ExpectImmoColon);
      if parsed.Err? {
        return Err(parsed.exc);
      }
      var value, evaluated := parsed.value.0, parsed.value.1;
      symbolTable := symbolTable.(vars := symbolTable.vars[name := evaluated], immo := symbolTable.immo + {name});
      r := Ok(ImmoVarDec(Identifier(name), value));
    }

    // ---- expressions

    /** `value = self.parse_expr()` and `evaluate(value, self.symbol_table)`. */
    method ParseValue() returns (r: Result<(Node, Value)>)
      requires Valid()
      modifies this`currentTokenIndex, this`currentToken
      ensures Valid()
      ensures match ValueAt(tokens, symbolTable, old(Pos()))
        case Ok(v) => r == Ok((v.node, v.value)) && Pos() == v.pos
        case Err(e) => r == Err(e)
    {
      var value := ParseExpr();
      if value.Err? {
        return Err(value.exc);
      }
      var evaluated := Interpreter.Evaluate(value.value, symbolTable.vars);
      if evaluated.Err? {
        return Err(evaluated.exc);
      }
      r := Ok((value.value, evaluated.value));
    }


    /** A `:` (`msg` otherwise), whitespace, and `ParseValue()`. */
    method ParseColonValue(msg: string) returns (r: Result<(Node, Value)>)
      requires Valid()
      modifies this`currentTokenIndex, this`currentToken
      ensures Valid()
      ensures match ColonValueAt(tokens, symbolTable, msg, old(Pos()))
        case Ok(v) => r == Ok((v.node, v.value)) && Pos() == v.pos
        case Err(e) => r == Err(e)
    {
      if currentToken.None? || currentToken.value.token != ":" {
        return Fail(ParserError, msg);
      }
      ConsumeAndSkip();
      r := ParseValue();
    }

    /** `parse_expr()`. */
    method ParseExpr() returns (r: Result<Node>)
      requires Valid()
      modifies this`currentTokenIndex, this`currentToken
      ensures Valid() && Yields(r, ExprAt(tokens, old(Pos())))
      decreases |tokens| - Pos(), 4
    {
      SkipWhitespace();
      r := ParseAdditive();
    }

    /** `parse_additive_expr()`. */
    method ParseAdditive() returns (r: Result<Node>)
      requires Valid()
      modifies this`currentTokenIndex, this`currentToken
      ensures Valid() && Yields(r, AddAt(tokens, old(Pos())))
      decreases |tokens| - Pos(), 3
    {
      ghost var goal := AddAt(tokens, Pos());
      SkipWhitespace();
      var left := ParseMultiplicative();
      if left.Err? {
        return left;
      }
      var l := left.value;
      while currentToken.Some? && H.IsAdditiveOp(currentToken.value.token)
        invariant Valid() && old(Pos()) <= Pos()
        invariant AddRest(tokens, l, Pos()) == goal
        decreases |tokens| - Pos()
      {
        var op := currentToken.value.token;
        Consume();
        var right := ParseMultiplicative();
        if right.Err? {
          return right;
        }
        l := BinaryExpr(l, op, right.value);
      }
      r := Ok(l);
    }

    /** `parse_multiplicative_expr()`. */
    method ParseMultiplicative() returns (r: Result<Node>)
      requires Valid()
      modifies this`currentTokenIndex, this`currentToken
      ensures Valid() && Yields(r, MulAt(tokens, old(Pos())))
      decreases |tokens| - Pos(), 2
    {
      ghost var goal := MulAt(tokens, Pos());
      SkipWhitespace();
      var left := ParsePrimary();
      if left.Err? {
        return left;
      }
      var l := left.value;
      while currentToken.Some? && N.IsMultiplicativeOp(currentToken.value.token)
        invariant Valid() && old(Pos()) <= Pos()
        invariant MulRest(tokens, l, Pos()) == goal
        decreases |tokens| - Pos()
      {
        var op := currentToken.value.token;
        Consume();
        var right := ParsePrimary();
        if right.Err? {
          return right;
        }
        l := BinaryExpr(l, op, right.value);
      }
      r := Ok(l);
    }

    /** `parse_primary_expr()`. */
    method ParsePrimary() returns (r: Result<Node>)
      requires Valid()
      modifies this`currentTokenIndex, this`currentToken
      ensures Valid() && Yields(r, PrimaryAt(tokens, old(Pos())))
      decreases |tokens| - Pos(), 1
    {
      SkipWhitespace();
      if currentToken.None? {
        return Fail(ParserError, UnexpectedEnd);
      }
      var t := currentToken.value;
      var literal := N.Literal(t);
      if H.IsIdToken(t.token) || t.token == "id" {
        Consume();
        r := Ok(Identifier(t.lexeme));
      } else if literal.Some? {
        if literal.value.Err? {
          return literal.value;
        }
        Consume();
        r := literal.value;
      } else if t.token == "(" {
        Consume();
        var value := ParseExpr();
        if value.Err? {
          return value;
        }
        var closed := Expect(")", CloseParen);
        if closed.Err? {
          return Err(closed.exc);
        }
        r := value;
      } else {
        r := Fail(ParserError, Unexpected + t.token);
      }
    }
  }

  // ---- check ------------------------------------------------------------------------

  const ValidSyntax: string := "Valid syntax."

  /** What `check` returns: a message with an empty table, or what `produce_ast`
      returned with its table. */
  datatype Outcome = Message(text: string) | Analysed(ast: Result<Node>, table: Store)

  /** `check` after the lexer: lexical errors and a syntax result other than
      `Valid syntax.` stop it with a message; otherwise `produce_ast` decides. */
  function CheckTokens(toks: seq<Token>, errors: seq<Lexer.LexError>, syntax: string): (r: Result<Outcome>)
    ensures errors != [] ==> r == Ok(Message(N.LexicalErrors))
    ensures errors == [] && syntax != ValidSyntax ==> r == Ok(Message(N.SyntaxErrors))
    ensures errors == [] && syntax == ValidSyntax ==>
      match ProduceAst(toks)
      case Ok(p) => r == Ok(Analysed(p.ast, p.store))
      case Err(e) => r == Err(e)
  {
    if errors != [] then Ok(Message(N.LexicalErrors))
    else if syntax != ValidSyntax then Ok(Message(N.SyntaxErrors))
    else
      var p :- ProduceAst(toks);
      Ok(Analysed(p.ast, p.store))
  }

  /** `check(fn, text)`: the lexer, then the syntax result `syntax` that `parse`
      gives for the same text, then `produce_ast`. The lexer's own exception on an
      empty text is not caught. `toks` are the tokens `run` gives for `text`, with
      what `Lexer.Tokenised` promises of them. `errors` is the lexer's error list;
      the model describes it no further. */
  method Check(text: string, syntax: string)
    returns (r: Result<Outcome>, ghost toks: seq<Token>, ghost errors: seq<Lexer.LexError>, ghost ids: map<string, string>, ghost starts: seq<nat>)
    ensures text == [] ==> r.Err?
    ensures text != [] ==> Lexer.Tokenised(text, toks, ids, starts)
    ensures text != [] ==> r == CheckTokens(toks, errors, syntax)
  {
    var lexed;
    lexed, ids, starts := Lexer.Run(text);
    if lexed.Err? {
      toks, errors := [], [];
      r := Err(lexed.exc);
      return;
    }
    toks, errors := lexed.value.0, lexed.value.1;
    if lexed.value.1 != [] {
      r := Ok(Message(N.LexicalErrors));
      return;
    }
    if syntax != ValidSyntax {
      r := Ok(Message(N.SyntaxErrors));
      return;
    }
    var semantic := new Semantic(lexed.value.0);
    var produced := semantic.ProduceAst();
    if produced.Err? {
      r := Err(produced.exc);
      return;
    }
    r := Ok(Analysed(produced.value.ast, produced.value.store));
  }
}
