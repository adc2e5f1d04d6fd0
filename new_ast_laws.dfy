/** Properties of the statement parser of ludus/new_ast.py, stated on the functions
    of module `NewAst`: declarations and assignments against `var_list`, the shape
    of a program, operator grouping and literal decoding. */
module NewAstLaws {
  import opened Results
  import opened Nodes
  import Decimal
  import Lexer
  import H = HelperParser
  import HL = HelperParserLaws
  import opened NewAst

  // ---- var_list ---------------------------------------------------------------------

  predicate NoDuplicates(xs: seq<string>) {
    forall i, j :: 0 <= i < j < |xs| ==> xs[i] != xs[j]
  }

  /** Initialisations split at any point: the second part is checked against the
      names the first part leaves recorded. */
  lemma {:induction false} InitsAppend(vars: seq<string>, a: seq<Node>, b: seq<Node>)
    ensures InitsOk(vars, a + b) <==> InitsOk(vars, a) && InitsOk(Recorded(vars, a), b)
    ensures Recorded(vars, a + b) == Recorded(Recorded(vars, a), b)
    decreases |a|
  {
    if a == [] {
      assert a + b == b;
    } else {
      assert (a + b)[0] == a[0];
      assert (a + b)[1..] == a[1..] + b;
      if a[0].VarDec? && a[0].name.Identifier? {
        InitsAppend(vars + [a[0].name.symbol], a[1..], b);
      } else {
        InitsAppend(vars, a[1..], b);
      }
    }
  }

  /** A run of proper initialisations keeps the recorded names free of duplicates:
      a name is recorded only by its declaration, and only when absent. */
  lemma {:induction false} RecordedNoDuplicates(vars: seq<string>, stmts: seq<Node>)
    requires NoDuplicates(vars) && InitsOk(vars, stmts)
    ensures NoDuplicates(Recorded(vars, stmts))
    decreases |stmts|
  {
    if stmts != [] {
      var s := stmts[0];
      if s.VarDec? {
        var v := vars + [s.name.symbol];
        assert forall i :: 0 <= i < |vars| ==> v[i] == vars[i];
        RecordedNoDuplicates(v, stmts[1..]);
      } else {
        RecordedNoDuplicates(vars, stmts[1..]);
      }
    }
  }

  /** The statements of a body are proper initialisations against `var_list`, and
      leave it recording their declarations. */
  lemma {:induction false} BodyInits(toks: seq<Token>, vars: seq<string>, acc: seq<Node>, p: nat)
    requires p <= |toks| && BodyLoop(toks, vars, acc, p).Ok?
    ensures var b := BodyLoop(toks, vars, acc, p).value;
      && |acc| <= |b.stmts| && b.stmts[..|acc|] == acc
      && InitsOk(vars, b.stmts[|acc|..]) && b.vars == Recorded(vars, b.stmts[|acc|..])
    decreases |toks| - p
  {
    var b := BodyLoop(toks, vars, acc, p).value;
    if p < |toks| && toks[p].token != "}" {
      var s := StmtAt(toks, vars, p).value;
      var acc' := acc + [s.node];
      BodyInits(toks, s.vars, acc', PastWhitespace(toks, s.pos));
      assert b == BodyLoop(toks, s.vars, acc', PastWhitespace(toks, s.pos)).value;
      PrefixStep(b.stmts, acc, s.node);
      InitsAppend(vars, [s.node], b.stmts[|acc'|..]);
    } else {
      assert b.stmts[|acc|..] == [];
    }
  }

  /** A play block is a block of proper initialisations. */
  lemma FuncInits(toks: seq<Token>, vars: seq<string>, p: nat)
    requires p <= |toks| && FuncAt(toks, vars, p).Ok?
    ensures var f := FuncAt(toks, vars, p).value;
      && f.node.PlayFunc? && f.node.playBody.BlockStmt?
      && InitsOk(vars, f.node.playBody.statements) && f.vars == Recorded(vars, f.node.playBody.statements)
  {
    var q := PastWhitespace(toks, p);
    BodyInits(toks, vars, [], BodyStart(toks, q));
    var b := BodyLoop(toks, vars, [], BodyStart(toks, q)).value;
    assert b.stmts[0..] == b.stmts;
  }

  /** An accumulator extended by `x` is a prefix of `b`: then so is the accumulator,
      and what follows it in `b` starts with `x`. */
  lemma PrefixStep(b: seq<Node>, acc: seq<Node>, x: Node)
    requires |acc| + 1 <= |b| && b[..|acc| + 1] == acc + [x]
    ensures b[..|acc|] == acc && b[|acc|..] == [x] + b[|acc| + 1..]
  {
    assert b[..|acc|] == b[..|acc| + 1][..|acc|];
    assert b[|acc|] == (acc + [x])[|acc|];
  }

  lemma StatementsCons(f: Node, rest: seq<Node>)
    requires IsPlayBlock(f)
    ensures Statements([f] + rest) == f.playBody.statements + Statements(rest)
  {
    assert ([f] + rest)[1..] == rest;
  }

  predicate IsPlayBlock(n: Node) { n.PlayFunc? && n.playBody.BlockStmt? }

  /** The statements of a program's play blocks, in order. */
  function Statements(blocks: seq<Node>): seq<Node> {
    if blocks == [] then []
    else (if IsPlayBlock(blocks[0]) then blocks[0].playBody.statements else []) + Statements(blocks[1..])
  }

  lemma {:induction false} ProgramInits(toks: seq<Token>, vars: seq<string>, acc: seq<Node>, p: nat)
    requires p <= |toks| && ProgramLoop(toks, vars, acc, p).Ok?
    ensures var b := ProgramLoop(toks, vars, acc, p).value;
      && |acc| <= |b.stmts| && b.stmts[..|acc|] == acc
      && (forall k :: |acc| <= k < |b.stmts| ==> IsPlayBlock(b.stmts[k]))
      && InitsOk(vars, Statements(b.stmts[|acc|..])) && b.vars == Recorded(vars, Statements(b.stmts[|acc|..]))
    decreases |toks| - p
  {
    var b := ProgramLoop(toks, vars, acc, p).value;
    if p < |toks| && toks[p].token != "gameOver" {
      var q := PastWhitespace(toks, p);
      var f := FuncAt(toks, vars, q).value;
      FuncInits(toks, vars, q);
      var acc' := acc + [f.node];
      ProgramInits(toks, f.vars, acc', H.Next(toks, f.pos));
      assert b == ProgramLoop(toks, f.vars, acc', H.Next(toks, f.pos)).value;
      PrefixStep(b.stmts, acc, f.node);
      var rest := b.stmts[|acc'|..];
      StatementsCons(f.node, rest);
      InitsAppend(vars, f.node.playBody.statements, Statements(rest));
    } else {
      assert b.stmts[|acc|..] == [];
    }
  }

  /** `produce_ast` on a fresh parser: a program made of play blocks only, in which
      each declaration names an identifier that no earlier statement initialised,
      each assignment names one that an earlier declaration did, and `var_list`
      never holds a name twice. */
  lemma ProgramInitsOk(toks: seq<Token>)
    requires ProduceAst(toks).Ok?
    ensures var n := ProduceAst(toks).value;
      && n.Program? && (forall k :: 0 <= k < |n.body| ==> IsPlayBlock(n.body[k]))
      && InitsOk([], Statements(n.body)) && NoDuplicates(Recorded([], Statements(n.body)))
  {
    ProgramInits(toks, [], [], 0);
    var b := ProgramLoop(toks, [], [], 0).value;
    assert b.stmts[0..] == b.stmts;
    RecordedNoDuplicates([], Statements(b.stmts));
  }

  /** A declaration or an assignment, never both: the first initialisation of a
      name declares it and records it; any later one assigns with `:` and leaves
      `var_list` as it was. */
  lemma DeclareOrAssign(toks: seq<Token>, vars: seq<string>, p: nat)
    requires p <= |toks| && StmtAt(toks, vars, p).Ok?
    ensures var s := StmtAt(toks, vars, p).value;
      || (s.node.VarDec? && s.node.name.Identifier? && s.node.name.symbol !in vars
          && s.vars == vars + [s.node.name.symbol])
      || (s.node.VarAssignment? && s.node.left.Identifier? && s.node.operator == ":"
          && s.node.left.symbol in vars && s.vars == vars)
  {
    var s := StmtAt(toks, vars, p).value;
    assert [s.node][1..] == [];
  }

  // ---- statements and the top level ------------------------------------------------

  /** A statement is exactly a variable initialisation: at an identifier whose next
      non-space token is `:` or `,` the statement is read by `parse_var_init`, and
      at anything else `parse_stmt` raises. */
  lemma StatementIsInit(toks: seq<Token>, vars: seq<string>, p: nat)
    requires p <= |toks|
    ensures var q := PastWhitespace(toks, p);
      && (StartsInit(toks, q) ==> StmtAt(toks, vars, p) == VarInitAt(toks, vars, q))
      && (!StartsInit(toks, q) ==> StmtAt(toks, vars, p).Err?)
  {
  }

  /** `produce_ast` reads only play blocks at the top: a first token (after spaces
      and newlines) other than `play` ends parsing with an exception naming it. */
  lemma TopLevelIsPlay(toks: seq<Token>)
    requires 0 < |toks| && toks[0].token != "gameOver"
    requires !H.At(toks, PastWhitespace(toks, 0), "play")
    ensures ProduceAst(toks).Err?
    ensures var q := PastWhitespace(toks, 0);
      q < |toks| ==> ProduceAst(toks) == Fail(PlainException, Unexpected + toks[q].token)
  {
  }

  // ---- operator grouping -----------------------------------------------------------

  predicate Atom(t: Token) { t.token == "flag_ltr" }

  function AtomNode(t: Token): (n: Node)
    requires Atom(t)
    ensures Literal(t) == Some(Ok(n))
  {
    FlagLiteral(t.lexeme == "true")
  }

  /** A flag literal followed by a token that is not a space is a primary
      expression ending there. */
  lemma AtomPrimary(toks: seq<Token>, p: nat)
    requires p < |toks| && Atom(toks[p]) && (p + 1 == |toks| || toks[p + 1].token != SPACE)
    ensures PrimaryAt(toks, p) == Ok(H.Parsed(AtomNode(toks[p]), p + 1))
  {
    assert H.PastSpaces(toks, p) == p;
    assert H.PastSpaces(toks, p + 1) == p + 1;
  }

  /** ... and a multiplicative expression when no `*`, `/` or `%` follows. */
  lemma AtomMul(toks: seq<Token>, p: nat)
    requires p < |toks| && Atom(toks[p]) && (p + 1 == |toks| || toks[p + 1].token != SPACE)
    requires p + 1 == |toks| || !IsMultiplicativeOp(toks[p + 1].token)
    ensures MulAt(toks, p) == Ok(H.Parsed(AtomNode(toks[p]), p + 1))
  {
    AtomPrimary(toks, p);
    assert H.PastSpaces(toks, p) == p;
  }

  /** Three flag literals and two operators, none of them a space. */
  predicate Shape(toks: seq<Token>, o1: string, o2: string) {
    && |toks| == 5 && Atom(toks[0]) && Atom(toks[2]) && Atom(toks[4])
    && toks[1].token == o1 && toks[3].token == o2 && o1 != SPACE && o2 != SPACE
  }

  /** `x + y - z` is `(x + y) - z`: `+` and `-` group to the left. */
  lemma AdditiveLeftAssoc(toks: seq<Token>, o1: string, o2: string)
    requires Shape(toks, o1, o2) && (o1 == "+" || o1 == "-") && (o2 == "+" || o2 == "-")
    ensures var x, y, z := AtomNode(toks[0]), AtomNode(toks[2]), AtomNode(toks[4]);
      ExprAt(toks, 0) == Ok(H.Parsed(BinaryExpr(BinaryExpr(x, o1, y), o2, z), 5))
  {
    var x, y, z := AtomNode(toks[0]), AtomNode(toks[2]), AtomNode(toks[4]);
    AtomMul(toks, 0);
    AtomMul(toks, 2);
    AtomMul(toks, 4);
    assert H.PastSpaces(toks, 0) == 0 && H.PastSpaces(toks, 2) == 2 && H.PastSpaces(toks, 4) == 4;
    var n := BinaryExpr(BinaryExpr(x, o1, y), o2, z);
    assert AddRest(toks, n, 5) == Ok(H.Parsed(n, 5));
    assert AddRest(toks, BinaryExpr(x, o1, y), 3) == Ok(H.Parsed(n, 5));
    assert AddRest(toks, x, 1) == Ok(H.Parsed(n, 5));
  }

  /** `x * y / z` is `(x * y) / z`: `*`, `/` and `%` group to the left. */
  lemma MultiplicativeLeftAssoc(toks: seq<Token>, o1: string, o2: string)
    requires Shape(toks, o1, o2) && IsMultiplicativeOp(o1) && IsMultiplicativeOp(o2)
    ensures var x, y, z := AtomNode(toks[0]), AtomNode(toks[2]), AtomNode(toks[4]);
      ExprAt(toks, 0) == Ok(H.Parsed(BinaryExpr(BinaryExpr(x, o1, y), o2, z), 5))
  {
    var x, y, z := AtomNode(toks[0]), AtomNode(toks[2]), AtomNode(toks[4]);
    AtomPrimary(toks, 0);
    AtomPrimary(toks, 2);
    AtomPrimary(toks, 4);
    assert H.PastSpaces(toks, 0) == 0 && H.PastSpaces(toks, 2) == 2 && H.PastSpaces(toks, 4) == 4;
    var n := BinaryExpr(BinaryExpr(x, o1, y), o2, z);
    assert MulRest(toks, n, 5) == Ok(H.Parsed(n, 5));
    assert MulRest(toks, BinaryExpr(x, o1, y), 3) == Ok(H.Parsed(n, 5));
    assert MulAt(toks, 0) == Ok(H.Parsed(n, 5));
    assert AddRest(toks, n, 5) == Ok(H.Parsed(n, 5));
  }

  /** `x + y * z` is `x + (y * z)`: the multiplicative operators bind tighter. */
  lemma MultiplicativeFirst(toks: seq<Token>, o1: string, o2: string)
    requires Shape(toks, o1, o2) && (o1 == "+" || o1 == "-") && IsMultiplicativeOp(o2)
    ensures var x, y, z := AtomNode(toks[0]), AtomNode(toks[2]), AtomNode(toks[4]);
      ExprAt(toks, 0) == Ok(H.Parsed(BinaryExpr(x, o1, BinaryExpr(y, o2, z)), 5))
  {
    var x, y, z := AtomNode(toks[0]), AtomNode(toks[2]), AtomNode(toks[4]);
    AtomMul(toks, 0);
    AtomPrimary(toks, 2);
    AtomPrimary(toks, 4);
    assert H.PastSpaces(toks, 0) == 0 && H.PastSpaces(toks, 2) == 2 && H.PastSpaces(toks, 4) == 4;
    var yz := BinaryExpr(y, o2, z);
    assert MulRest(toks, yz, 5) == Ok(H.Parsed(yz, 5));
    assert MulAt(toks, 2) == Ok(H.Parsed(yz, 5));
    var n := BinaryExpr(x, o1, yz);
    assert AddRest(toks, n, 5) == Ok(H.Parsed(n, 5));
    assert AddRest(toks, x, 1) == Ok(H.Parsed(n, 5));
  }

  // One turn of each `while` loop, and chains of any length.

  lemma AddStep(toks: seq<Token>, left: Node, p: nat, m: Node, q: nat)
    requires p < |toks| && H.IsAdditiveOp(toks[p].token)
    requires MulAt(toks, H.PastSpaces(toks, p + 1)) == Ok(H.Parsed(m, q))
    ensures AddRest(toks, left, p) == AddRest(toks, BinaryExpr(left, toks[p].token, m), q)
  {
  }

  lemma MulStep(toks: seq<Token>, left: Node, p: nat, m: Node, q: nat)
    requires p < |toks| && IsMultiplicativeOp(toks[p].token)
    requires PrimaryAt(toks, H.PastSpaces(toks, p + 1)) == Ok(H.Parsed(m, q))
    ensures MulRest(toks, left, p) == MulRest(toks, BinaryExpr(left, toks[p].token, m), q)
  {
  }

  /** The two levels of `parse_expr` whose `while` loops fold a binary node. */
  datatype Level = AddLevel | MulLevel

  predicate IsOpOf(lv: Level, t: string) {
    if lv.AddLevel? then H.IsAdditiveOp(t) else IsMultiplicativeOp(t)
  }

  /** The parse function a level reads its operands with. */
  function Operand(toks: seq<Token>, lv: Level, p: nat): (r: Result<Parsed>)
    requires p <= |toks|
    ensures r.Ok? ==> p < r.value.pos <= |toks|
  {
    if lv.AddLevel? then MulAt(toks, p) else PrimaryAt(toks, p)
  }

  function Rest(toks: seq<Token>, lv: Level, left: Node, p: nat): Result<Parsed>
    requires p <= |toks|
  {
    if lv.AddLevel? then AddRest(toks, left, p) else MulRest(toks, left, p)
  }

  function LevelAt(toks: seq<Token>, lv: Level, p: nat): Result<Parsed>
    requires p <= |toks|
  {
    if lv.AddLevel? then AddAt(toks, p) else MulAt(toks, p)
  }

  /** Operator `ops[k]` of the level at `ps[k]`, followed by an operand the next
      level reads as `operands[k]` up to `ps[k + 1]`; no operator of the level at
      the last position. */
  predicate LevelChain(toks: seq<Token>, lv: Level, ps: seq<nat>, ops: seq<string>, operands: seq<Node>) {
    && |ps| == |ops| + 1 && |operands| == |ops|
    && (forall k :: 0 <= k < |ps| ==> ps[k] <= |toks|)
    && (forall k :: 0 <= k < |ops| ==>
          && ps[k] < |toks| && toks[ps[k]].token == ops[k] && IsOpOf(lv, ops[k])
          && Operand(toks, lv, H.PastSpaces(toks, ps[k] + 1)) == Ok(H.Parsed(operands[k], ps[k + 1])))
    && !(ps[|ops|] < |toks| && IsOpOf(lv, toks[ps[|ops|]].token))
  }

  /** Without an operator of the level, the loop stops at once. */
  lemma RestStops(toks: seq<Token>, lv: Level, left: Node, p: nat)
    requires p <= |toks| && !(p < |toks| && IsOpOf(lv, toks[p].token))
    ensures Rest(toks, lv, left, p) == Ok(H.Parsed(left, p))
  {
  }

  /** The `k`-th turn of the loop over a chain. */
  lemma ChainStep(toks: seq<Token>, lv: Level, first: Node, ps: seq<nat>, ops: seq<string>, operands: seq<Node>, k: nat)
    requires LevelChain(toks, lv, ps, ops, operands) && k < |ops|
    ensures Rest(toks, lv, HL.LeftNested(first, ops[..k], operands[..k]), ps[k])
      == Rest(toks, lv, HL.LeftNested(first, ops[..k + 1], operands[..k + 1]), ps[k + 1])
  {
    var left := HL.LeftNested(first, ops[..k], operands[..k]);
    HL.LeftNestedSnoc(first, ops, operands, k);
    assert ps[k] < |toks| && toks[ps[k]].token == ops[k] && IsOpOf(lv, ops[k]);
    assert Operand(toks, lv, H.PastSpaces(toks, ps[k] + 1)) == Ok(H.Parsed(operands[k], ps[k + 1]));
    if lv.AddLevel? {
      AddStep(toks, left, ps[k], operands[k], ps[k + 1]);
    } else {
      MulStep(toks, left, ps[k], operands[k], ps[k + 1]);
    }
  }

  lemma {:induction false} RestFolds(toks: seq<Token>, lv: Level, first: Node, ps: seq<nat>, ops: seq<string>, operands: seq<Node>, k: nat)
    requires LevelChain(toks, lv, ps, ops, operands) && k <= |ops|
    ensures Rest(toks, lv, HL.LeftNested(first, ops[..k], operands[..k]), ps[k])
      == Ok(H.Parsed(HL.LeftNested(first, ops, operands), ps[|ops|]))
    decreases |ops| - k
  {
    if k == |ops| {
      assert ops[..k] == ops && operands[..k] == operands;
      RestStops(toks, lv, HL.LeftNested(first, ops, operands), ps[k]);
    } else {
      ChainStep(toks, lv, first, ps, ops, operands, k);
      RestFolds(toks, lv, first, ps, ops, operands, k + 1);
    }
  }

  /** `e0 o1 e1 ... on en`, of any length, at the additive or multiplicative
      level, is the left-nested tree of its operands: the operators group to the
      left, and each additive operand is a whole product, which binds tighter. */
  lemma LeftFold(toks: seq<Token>, lv: Level, p: nat, first: Node, ps: seq<nat>, ops: seq<string>, operands: seq<Node>)
    requires p <= |toks| && LevelChain(toks, lv, ps, ops, operands)
    requires Operand(toks, lv, H.PastSpaces(toks, p)) == Ok(H.Parsed(first, ps[0]))
    ensures LevelAt(toks, lv, p) == Ok(H.Parsed(HL.LeftNested(first, ops, operands), ps[|ops|]))
  {
    RestFolds(toks, lv, first, ps, ops, operands, 0);
    assert ops[..0] == [] && operands[..0] == [];
  }

  // ---- literals ---------------------------------------------------------------------

  /** A comms literal loses the quotes the lexer wrapped around its text, provided
      the text holds no newline. */
  lemma CommsUnquoted(s: string, line: int, column: int)
    requires '\n' !in s
    ensures Literal(Lexer.Token("\"" + s + "\"", "comms_ltr", line, column)) == Some(Ok(CommsLiteral(s)))
  {
    var l := "\"" + s + "\"";
    assert l[1..|l| - 1] == s;
  }

  /** A newline in the text (the lexer's `\n` escape) stops `.` of the pattern from
      matching: the quotes are then kept. */
  lemma CommsWithNewlineKeepsQuotes(s: string, line: int, column: int)
    requires '\n' in s
    ensures Literal(Lexer.Token("\"" + s + "\"", "comms_ltr", line, column)) == Some(Ok(CommsLiteral("\"" + s + "\"")))
  {
    var l := "\"" + s + "\"";
    assert l[1..|l| - 1] == s;
  }

  /** Only the lexeme `true` is the flag True. */
  lemma FlagDecoded(lexeme: string, line: int, column: int)
    ensures var r := Literal(Lexer.Token(lexeme, "flag_ltr", line, column));
      r.Some? && r.value.Ok? && r.value.value.FlagLiteral? && (r.value.value.flag <==> lexeme == "true")
  {
  }

  /** hp and nhp tokens carry the number their lexeme spells. */
  lemma HpDecoded(n: int, negative: bool, line: int, column: int)
    ensures Literal(Lexer.Token(Decimal.IntToString(n), if negative then "nhp_ltr" else "hp_ltr", line, column))
      == Some(Ok(HpLiteral(n)))
  {
    HpLiteralRoundTrip(n);
  }
}
