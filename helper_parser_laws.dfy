/** Properties of the expression parser of ludus/helper_parser.py, stated on the
    functions of module `HelperParser`. */
module HelperParserLaws {
  import opened Results
  import opened Nodes
  import Lexer
  import opened HelperParser

  /** `parse_expr` stops only before `)` or at the end, so the `]` that must close
      an array index is never the current token after it: every indexed access
      `a[i]` is rejected. */
  lemma IndexedAccessFails(c: Ctx, sym: string, q: nat)
    requires q < |c.tokens| && c.tokens[q].token == "["
    ensures ArrayAccess(c, sym, q).Err?
  {
    IndexLoopFails(c, [], q);
  }

  lemma IndexLoopFails(c: Ctx, dims: seq<Node>, q: nat)
    requires q < |c.tokens| && c.tokens[q].token == "["
    ensures IndexLoop(c, dims, q).Err?
  {
    if !At(c.tokens, q + 1, "]") {
      var d := ExprAt(c, q + 1);
      if d.Ok? {
        assert PastSpaces(c.tokens, d.value.pos) == d.value.pos;
      }
    }
  }

  predicate Atom(t: Token) { t.token == "flag_ltr" || t.token == "dead" }

  /** The literal an operand token stands for. */
  function AtomNode(t: Token): (n: Node)
    requires Atom(t)
    ensures LiteralOf(t) == Some(Ok(n))
  {
    if t.token == "dead" then DeadLiteral(None) else FlagLiteral(t.lexeme == "true")
  }

  /** No space at `p` (or the end): `skip_spaces` stays put. */
  predicate Tight(toks: seq<Token>, p: nat) { p >= |toks| || toks[p].token != SPACE }

  /** A literal operand, followed by a token that is not a space, is read by
      `parse_exp_expr` up to the token after it. */
  lemma AtomExp(c: Ctx, p: nat)
    requires p < |c.tokens| && Atom(c.tokens[p]) && Tight(c.tokens, p + 1)
    ensures NotAt(c, p) == ExpAt(c, p) == ExpRest(c, AtomNode(c.tokens[p]), p + 1)
  {
    assert PastSpaces(c.tokens, p + 1) == p + 1;
    assert TokenAt(c, p, false) == Ok(Parsed(AtomNode(c.tokens[p]), p + 1));
  }

  /** A literal operand not followed by `^` starts a multiplicative expression. */
  lemma AtomMul(c: Ctx, p: nat)
    requires p < |c.tokens| && Atom(c.tokens[p]) && Tight(c.tokens, p + 1)
    requires !At(c.tokens, p + 1, "^")
    ensures MulAt(c, p) == MulRest(c, AtomNode(c.tokens[p]), p + 1)
  {
    AtomExp(c, p);
    assert PastSpaces(c.tokens, p) == p;
    assert ExpAt(c, p) == Ok(Parsed(AtomNode(c.tokens[p]), p + 1));
  }

  /** A literal operand followed by the end or by a token of no arithmetic level is
      a whole additive expression. */
  lemma AtomAdd(c: Ctx, p: nat)
    requires p < |c.tokens| && Atom(c.tokens[p]) && Tight(c.tokens, p + 1)
    requires p + 1 < |c.tokens| ==> var t := c.tokens[p + 1].token;
      t != "^" && !IsMultiplicativeOp(t) && !IsAdditiveOp(t)
    ensures AddAt(c, p) == Ok(Parsed(AtomNode(c.tokens[p]), p + 1))
  {
    AtomMul(c, p);
    assert PastSpaces(c.tokens, p) == p;
    assert MulAt(c, p) == Ok(Parsed(AtomNode(c.tokens[p]), p + 1));
  }

  /** ... and, when no comparison follows either, a whole relational expression. */
  lemma AtomRelat(c: Ctx, p: nat)
    requires p < |c.tokens| && Atom(c.tokens[p]) && Tight(c.tokens, p + 1)
    requires p + 1 < |c.tokens| ==> var t := c.tokens[p + 1].token;
      t != "^" && !IsMultiplicativeOp(t) && !IsAdditiveOp(t) && !IsRelationalOp(t)
    ensures RelatAt(c, p) == Ok(Parsed(AtomNode(c.tokens[p]), p + 1))
  {
    AtomAdd(c, p);
    assert PastSpaces(c.tokens, p) == p;
  }

  // Each level that reads the tokens to their end is the whole expression.

  lemma OrToExpr(c: Ctx, n: Node)
    requires 0 < |c.tokens| && Tight(c.tokens, 0) && OrAt(c, 0) == Ok(Parsed(n, |c.tokens|))
    ensures ExprAt(c, 0) == Ok(Parsed(n, |c.tokens|))
  {
    assert PastSpaces(c.tokens, 0) == 0;
  }

  lemma AndToExpr(c: Ctx, n: Node)
    requires 0 < |c.tokens| && Tight(c.tokens, 0) && AndAt(c, 0) == Ok(Parsed(n, |c.tokens|))
    ensures ExprAt(c, 0) == Ok(Parsed(n, |c.tokens|))
  {
    assert PastSpaces(c.tokens, 0) == 0;
    assert OrAt(c, 0) == Ok(Parsed(n, |c.tokens|));
    OrToExpr(c, n);
  }

  lemma RelatToExpr(c: Ctx, n: Node)
    requires 0 < |c.tokens| && Tight(c.tokens, 0) && RelatAt(c, 0) == Ok(Parsed(n, |c.tokens|))
    ensures ExprAt(c, 0) == Ok(Parsed(n, |c.tokens|))
  {
    assert PastSpaces(c.tokens, 0) == 0;
    assert AndAt(c, 0) == Ok(Parsed(n, |c.tokens|));
    AndToExpr(c, n);
  }

  lemma AddToExpr(c: Ctx, n: Node)
    requires 0 < |c.tokens| && Tight(c.tokens, 0) && AddAt(c, 0) == Ok(Parsed(n, |c.tokens|))
    ensures ExprAt(c, 0) == Ok(Parsed(n, |c.tokens|))
  {
    assert PastSpaces(c.tokens, 0) == 0;
    assert RelatAt(c, 0) == Ok(Parsed(n, |c.tokens|));
    RelatToExpr(c, n);
  }

  lemma MulToExpr(c: Ctx, n: Node)
    requires 0 < |c.tokens| && Tight(c.tokens, 0) && MulAt(c, 0) == Ok(Parsed(n, |c.tokens|))
    ensures ExprAt(c, 0) == Ok(Parsed(n, |c.tokens|))
  {
    assert PastSpaces(c.tokens, 0) == 0;
    assert AddAt(c, 0) == Ok(Parsed(n, |c.tokens|));
    AddToExpr(c, n);
  }

  /** Three operands and two operators, none of them a space. */
  predicate Shape(c: Ctx, o1: string, o2: string) {
    |c.tokens| == 5 && Atom(c.tokens[0]) && Atom(c.tokens[2]) && Atom(c.tokens[4])
    && c.tokens[1].token == o1 && c.tokens[3].token == o2 && o1 != SPACE && o2 != SPACE
  }

  function X(c: Ctx): Node requires |c.tokens| == 5 && Atom(c.tokens[0]) { AtomNode(c.tokens[0]) }
  function Y(c: Ctx): Node requires |c.tokens| == 5 && Atom(c.tokens[2]) { AtomNode(c.tokens[2]) }
  function Z(c: Ctx): Node requires |c.tokens| == 5 && Atom(c.tokens[4]) { AtomNode(c.tokens[4]) }

  // One turn of each `while` loop, the right operand being read without spaces.

  lemma AddStep(c: Ctx, left: Node, p: nat, m: Node, q: nat)
    requires p + 1 <= |c.tokens| && IsAdditiveOp(c.tokens[p].token) && Tight(c.tokens, p + 1)
    requires MulAt(c, p + 1) == Ok(Parsed(m, q))
    ensures AddRest(c, left, p) == AddRest(c, BinaryExpr(left, c.tokens[p].token, m), q)
  {
    assert PastSpaces(c.tokens, p + 1) == p + 1;
  }

  lemma RelatStep(c: Ctx, left: Node, acc: seq<Node>, p: nat, m: Node, q: nat)
    requires p + 1 <= |c.tokens| && IsRelationalOp(c.tokens[p].token) && Tight(c.tokens, p + 1)
    requires AddAt(c, p + 1) == Ok(Parsed(m, q))
    ensures RelatRest(c, left, acc, p) == RelatRest(c, m, acc + [BinaryExpr(left, c.tokens[p].token, m)], q)
  {
    assert PastSpaces(c.tokens, p + 1) == p + 1;
  }

  lemma AndStep(c: Ctx, left: Node, p: nat, m: Node, q: nat)
    requires p + 1 <= |c.tokens| && IsAndOp(c.tokens[p].token) && Tight(c.tokens, p + 1)
    requires RelatAt(c, p + 1) == Ok(Parsed(m, q))
    ensures AndRest(c, left, p) == AndRest(c, BinaryExpr(left, c.tokens[p].token, m), q)
  {
    assert PastSpaces(c.tokens, p + 1) == p + 1;
  }

  lemma OrStep(c: Ctx, left: Node, p: nat, m: Node, q: nat)
    requires p + 1 <= |c.tokens| && IsOrOp(c.tokens[p].token) && Tight(c.tokens, p + 1)
    requires AndAt(c, p + 1) == Ok(Parsed(m, q))
    ensures OrRest(c, left, p) == OrRest(c, BinaryExpr(left, c.tokens[p].token, m), q)
  {
    assert PastSpaces(c.tokens, p + 1) == p + 1;
  }

  /** `x + y - z` is `(x + y) - z`: `+` and `-` group to the left. */
  lemma AdditiveLeftAssoc(c: Ctx, o1: string, o2: string)
    requires Shape(c, o1, o2) && (o1 == "+" || o1 == "-") && (o2 == "+" || o2 == "-")
    ensures ExprAt(c, 0) == Ok(Parsed(BinaryExpr(BinaryExpr(X(c), o1, Y(c)), o2, Z(c)), 5))
  {
    AtomMul(c, 0);
    AdditiveTail(c, o1, o2);
    assert PastSpaces(c.tokens, 0) == 0;
    AddToExpr(c, BinaryExpr(BinaryExpr(X(c), o1, Y(c)), o2, Z(c)));
  }

  lemma AdditiveTail(c: Ctx, o1: string, o2: string)
    requires Shape(c, o1, o2) && (o1 == "+" || o1 == "-") && (o2 == "+" || o2 == "-")
    ensures AddRest(c, X(c), 1) == Ok(Parsed(BinaryExpr(BinaryExpr(X(c), o1, Y(c)), o2, Z(c)), 5))
  {
    AtomMul(c, 2);
    AtomMul(c, 4);
    var xy := BinaryExpr(X(c), o1, Y(c));
    AddStep(c, X(c), 1, Y(c), 3);
    AddStep(c, xy, 3, Z(c), 5);
  }

  /** `x + y * z` is `x + (y * z)`: `*`, `/` and `%` bind tighter than `+` and `-`. */
  lemma MultiplicativeFirst(c: Ctx, o1: string, o2: string)
    requires Shape(c, o1, o2) && (o1 == "+" || o1 == "-") && (o2 == "*" || o2 == "/" || o2 == "%")
    ensures ExprAt(c, 0) == Ok(Parsed(BinaryExpr(X(c), o1, BinaryExpr(Y(c), o2, Z(c))), 5))
  {
    AtomMul(c, 0);
    MultiplicativeTail(c, o1, o2);
    assert PastSpaces(c.tokens, 0) == 0;
    AddToExpr(c, BinaryExpr(X(c), o1, BinaryExpr(Y(c), o2, Z(c))));
  }

  lemma MultiplicativeTail(c: Ctx, o1: string, o2: string)
    requires Shape(c, o1, o2) && (o1 == "+" || o1 == "-") && (o2 == "*" || o2 == "/" || o2 == "%")
    ensures AddRest(c, X(c), 1) == Ok(Parsed(BinaryExpr(X(c), o1, BinaryExpr(Y(c), o2, Z(c))), 5))
  {
    AtomMul(c, 2);
    AtomExp(c, 4);
    var yz := BinaryExpr(Y(c), o2, Z(c));
    assert PastSpaces(c.tokens, 4) == 4;
    assert MulRest(c, Y(c), 3) == MulRest(c, yz, 5);
    AddStep(c, X(c), 1, yz, 5);
  }

  /** `x ^ y ^ z` is `x ^ (y ^ z)`: `^` groups to the right. */
  lemma ExponentRightAssoc(c: Ctx)
    requires Shape(c, "^", "^")
    ensures ExprAt(c, 0) == Ok(Parsed(BinaryExpr(X(c), "^", BinaryExpr(Y(c), "^", Z(c))), 5))
  {
    AtomExp(c, 0);
    AtomExp(c, 2);
    AtomExp(c, 4);
    var yz := BinaryExpr(Y(c), "^", Z(c));
    assert ExpAt(c, 4) == Ok(Parsed(Z(c), 5));
    assert ExpRest(c, yz, 5) == Ok(Parsed(yz, 5));
    assert ExpAt(c, 2) == Ok(Parsed(yz, 5));
    var n := BinaryExpr(X(c), "^", yz);
    assert ExpRest(c, n, 5) == Ok(Parsed(n, 5));
    assert ExpAt(c, 0) == Ok(Parsed(n, 5));
    assert MulRest(c, n, 5) == Ok(Parsed(n, 5));
    assert MulAt(c, 0) == Ok(Parsed(n, 5));
    MulToExpr(c, n);
  }

  /** `x < y <= z` is the chain of the comparisons `x < y` and `y <= z`, with `y`
      shared, rather than a comparison of a comparison. */
  lemma RelationalChain(c: Ctx, o1: string, o2: string)
    requires Shape(c, o1, o2) && IsRelationalOp(o1) && IsRelationalOp(o2)
    ensures ExprAt(c, 0)
      == Ok(Parsed(ChainRelatExpr([BinaryExpr(X(c), o1, Y(c)), BinaryExpr(Y(c), o2, Z(c))]), 5))
  {
    AtomAdd(c, 0);
    RelationalTail(c, o1, o2);
    assert PastSpaces(c.tokens, 0) == 0;
    RelatToExpr(c, ChainRelatExpr([BinaryExpr(X(c), o1, Y(c)), BinaryExpr(Y(c), o2, Z(c))]));
  }

  lemma RelationalTail(c: Ctx, o1: string, o2: string)
    requires Shape(c, o1, o2) && IsRelationalOp(o1) && IsRelationalOp(o2)
    ensures RelatRest(c, X(c), [], 1) == Ok(ParsedList([BinaryExpr(X(c), o1, Y(c)), BinaryExpr(Y(c), o2, Z(c))], 5))
  {
    AtomAdd(c, 2);
    AtomAdd(c, 4);
    var a, b := BinaryExpr(X(c), o1, Y(c)), BinaryExpr(Y(c), o2, Z(c));
    RelatStep(c, X(c), [], 1, Y(c), 3);
    RelatStep(c, Y(c), [a], 3, Z(c), 5);
    assert [] + [a] == [a];
    assert [a] + [b] == [a, b];
  }

  /** `x OR y AND z` is `x OR (y AND z)`: AND binds tighter than OR. */
  lemma AndBeforeOr(c: Ctx, o1: string, o2: string)
    requires Shape(c, o1, o2) && IsOrOp(o1) && IsAndOp(o2)
    ensures ExprAt(c, 0) == Ok(Parsed(BinaryExpr(X(c), o1, BinaryExpr(Y(c), o2, Z(c))), 5))
  {
    AtomRelat(c, 0);
    OrTail(c, o1, o2);
    assert PastSpaces(c.tokens, 0) == 0;
    assert AndAt(c, 0) == Ok(Parsed(X(c), 1));
    OrToExpr(c, BinaryExpr(X(c), o1, BinaryExpr(Y(c), o2, Z(c))));
  }

  lemma OrTail(c: Ctx, o1: string, o2: string)
    requires Shape(c, o1, o2) && IsOrOp(o1) && IsAndOp(o2)
    ensures OrRest(c, X(c), 1) == Ok(Parsed(BinaryExpr(X(c), o1, BinaryExpr(Y(c), o2, Z(c))), 5))
  {
    AtomRelat(c, 2);
    AtomRelat(c, 4);
    var yz := BinaryExpr(Y(c), o2, Z(c));
    assert PastSpaces(c.tokens, 2) == 2;
    AndStep(c, Y(c), 3, Z(c), 5);
    assert AndAt(c, 2) == Ok(Parsed(yz, 5));
    OrStep(c, X(c), 1, yz, 5);
  }

  /** `skip_spaces` twice is `skip_spaces` once. */
  lemma PastSpacesIdempotent(toks: seq<Token>, p: nat)
    requires p <= |toks|
    ensures PastSpaces(toks, PastSpaces(toks, p)) == PastSpaces(toks, p)
  {
    var q := PastSpaces(toks, p);
    if q < |toks| {
      assert toks[q].token != SPACE;
    }
  }

  /** An expression whose first token other than spaces is `!` always fails: the
      `!` branch of `parse_not_expr` calls `parse_exp_expr` without its `scope`. */
  lemma NegationAlwaysFails(c: Ctx, p: nat)
    requires p <= |c.tokens| && At(c.tokens, PastSpaces(c.tokens, p), "!")
    ensures ExprAt(c, p) == Err(MissingScope)
  {
    var q := PastSpaces(c.tokens, p);
    PastSpacesIdempotent(c.tokens, p);
    assert NotAt(c, q) == Err(MissingScope);
    assert MulAt(c, q) == Err(MissingScope);
    assert AddAt(c, q) == Err(MissingScope);
    assert RelatAt(c, q) == Err(MissingScope);
    assert AndAt(c, q) == Err(MissingScope);
    assert OrAt(c, q) == Err(MissingScope);
  }

  /** A call argument that is not a single primary (its next token other than
      spaces is neither `,` nor `)`) is read by `parse_expr`, which stops only
      before `)`: when such an argument parses, it is the last one. */
  lemma ExprArgumentIsLast(c: Ctx, args: seq<Node>, q: nat)
    requires q < |c.tokens| && c.tokens[q].token != ")"
    requires NextNonSpace(c.tokens, q + 1).Some?
    requires NextNonSpace(c.tokens, q + 1).value.token !in {",", ")"}
    requires ArgsLoop(c, args, q).Ok?
    ensures |ArgsLoop(c, args, q).value.nodes| == |args| + 1
  {
    var a := ArgAt(c, q);
    assert a == ExprAt(c, q);
    assert PastSeparator(c.tokens, a.value.pos) == a.value.pos;
  }

  // ---- chains of any length ---------------------------------------------------------

  /** `first o1 e1 o2 e2 ... on en` grouped to the left: the last operator is the
      root, and everything before it is its left operand. */
  function LeftNested(first: Node, ops: seq<string>, operands: seq<Node>): Node
    requires |ops| == |operands|
    decreases |ops|
  {
    if ops == [] then first
    else BinaryExpr(LeftNested(first, ops[..|ops| - 1], operands[..|ops| - 1]), ops[|ops| - 1], operands[|ops| - 1])
  }

  /** The four levels of `parse_expr` whose `while` loops fold a binary node. */
  datatype Level = OrLevel | AndLevel | AddLevel | MulLevel

  /** The operators a level's loop accepts. */
  predicate IsOpOf(lv: Level, t: string) {
    match lv
    case OrLevel => IsOrOp(t)
    case AndLevel => IsAndOp(t)
    case AddLevel => IsAdditiveOp(t)
    case MulLevel => IsMultiplicativeOp(t)
  }

  /** The parse function a level reads its operands with: the next level down. */
  function Operand(c: Ctx, lv: Level, p: nat): (r: Result<Parsed>)
    requires p <= |c.tokens|
    ensures r.Ok? ==> p < r.value.pos <= |c.tokens|
  {
    match lv
    case OrLevel => AndAt(c, p)
    case AndLevel => RelatAt(c, p)
    case AddLevel => MulAt(c, p)
    case MulLevel => NotAt(c, p)
  }

  /** A level's `while` loop, from a left operand. */
  function Rest(c: Ctx, lv: Level, left: Node, p: nat): Result<Parsed>
    requires p <= |c.tokens|
  {
    match lv
    case OrLevel => OrRest(c, left, p)
    case AndLevel => AndRest(c, left, p)
    case AddLevel => AddRest(c, left, p)
    case MulLevel => MulRest(c, left, p)
  }

  /** A level's whole parse function. */
  function LevelAt(c: Ctx, lv: Level, p: nat): Result<Parsed>
    requires p <= |c.tokens|
  {
    match lv
    case OrLevel => OrAt(c, p)
    case AndLevel => AndAt(c, p)
    case AddLevel => AddAt(c, p)
    case MulLevel => MulAt(c, p)
  }

  /** A chain after a first operand: operator `ops[k]` of the level stands at
      `ps[k]`, the next level reads the operand after it (spaces skipped) as
      `operands[k]` up to `ps[k + 1]`, and no operator of the level stands at the
      last position. */
  predicate LevelChain(c: Ctx, lv: Level, ps: seq<nat>, ops: seq<string>, operands: seq<Node>) {
    && |ps| == |ops| + 1 && |operands| == |ops|
    && (forall k :: 0 <= k < |ps| ==> ps[k] <= |c.tokens|)
    && (forall k :: 0 <= k < |ops| ==>
          && ps[k] < |c.tokens| && c.tokens[ps[k]].token == ops[k] && IsOpOf(lv, ops[k])
          && Operand(c, lv, PastSpaces(c.tokens, ps[k] + 1)) == Ok(Parsed(operands[k], ps[k + 1])))
    && !(ps[|ops|] < |c.tokens| && IsOpOf(lv, c.tokens[ps[|ops|]].token))
  }

  /** One turn of a level's loop. */
  lemma RestStep(c: Ctx, lv: Level, left: Node, p: nat, m: Node, q: nat)
    requires p < |c.tokens| && IsOpOf(lv, c.tokens[p].token)
    requires Operand(c, lv, PastSpaces(c.tokens, p + 1)) == Ok(Parsed(m, q))
    ensures Rest(c, lv, left, p) == Rest(c, lv, BinaryExpr(left, c.tokens[p].token, m), q)
  {
  }

  /** Without an operator of the level, the loop stops at once. */
  lemma RestStops(c: Ctx, lv: Level, left: Node, p: nat)
    requires p <= |c.tokens| && !(p < |c.tokens| && IsOpOf(lv, c.tokens[p].token))
    ensures Rest(c, lv, left, p) == Ok(Parsed(left, p))
  {
  }

  /** One more operator and operand nest the tree built so far to the left. */
  lemma LeftNestedSnoc(first: Node, ops: seq<string>, operands: seq<Node>, k: nat)
    requires |ops| == |operands| && k < |ops|
    ensures LeftNested(first, ops[..k + 1], operands[..k + 1])
      == BinaryExpr(LeftNested(first, ops[..k], operands[..k]), ops[k], operands[k])
  {
    assert ops[..k + 1][..k] == ops[..k] && operands[..k + 1][..k] == operands[..k];
  }

  /** Link `k` of a chain. */
  lemma ChainLink(c: Ctx, lv: Level, ps: seq<nat>, ops: seq<string>, operands: seq<Node>, k: nat)
    requires LevelChain(c, lv, ps, ops, operands) && k < |ops|
    ensures ps[k] < |c.tokens| && c.tokens[ps[k]].token == ops[k] && IsOpOf(lv, ops[k])
    ensures Operand(c, lv, PastSpaces(c.tokens, ps[k] + 1)) == Ok(Parsed(operands[k], ps[k + 1]))
  {
  }

  /** The `k`-th turn of the loop over a chain. */
  lemma ChainStep(c: Ctx, lv: Level, first: Node, ps: seq<nat>, ops: seq<string>, operands: seq<Node>, k: nat)
    requires LevelChain(c, lv, ps, ops, operands) && k < |ops|
    ensures Rest(c, lv, LeftNested(first, ops[..k], operands[..k]), ps[k])
      == Rest(c, lv, LeftNested(first, ops[..k + 1], operands[..k + 1]), ps[k + 1])
  {
    LeftNestedSnoc(first, ops, operands, k);
    ChainLink(c, lv, ps, ops, operands, k);
    RestStep(c, lv, LeftNested(first, ops[..k], operands[..k]), ps[k], operands[k], ps[k + 1]);
  }

  /** From the `k`-th operator on, the loop completes the left-nested tree. */
  lemma {:induction false} RestFolds(c: Ctx, lv: Level, first: Node, ps: seq<nat>, ops: seq<string>, operands: seq<Node>, k: nat)
    requires LevelChain(c, lv, ps, ops, operands) && k <= |ops|
    ensures Rest(c, lv, LeftNested(first, ops[..k], operands[..k]), ps[k])
      == Ok(Parsed(LeftNested(first, ops, operands), ps[|ops|]))
    decreases |ops| - k
  {
    if k == |ops| {
      assert ops[..k] == ops && operands[..k] == operands;
      RestStops(c, lv, LeftNested(first, ops, operands), ps[k]);
    } else {
      ChainStep(c, lv, first, ps, ops, operands, k);
      RestFolds(c, lv, first, ps, ops, operands, k + 1);
    }
  }

  /** `e0 o1 e1 ... on en`, of any length, at the `or`, `and`, additive or
      multiplicative level, is the left-nested tree of its operands: these
      operators group to the left, and each operand is a whole expression of the
      next level down, which therefore binds tighter. */
  lemma LeftFold(c: Ctx, lv: Level, p: nat, first: Node, ps: seq<nat>, ops: seq<string>, operands: seq<Node>)
    requires p <= |c.tokens| && LevelChain(c, lv, ps, ops, operands)
    requires Operand(c, lv, PastSpaces(c.tokens, p)) == Ok(Parsed(first, ps[0]))
    ensures LevelAt(c, lv, p) == Ok(Parsed(LeftNested(first, ops, operands), ps[|ops|]))
  {
    RestFolds(c, lv, first, ps, ops, operands, 0);
    assert ops[..0] == [] && operands[..0] == [];
  }

  /** The operand before comparison `k`: the first one, or the right operand of
      comparison `k - 1`. */
  function LeftOperand(first: Node, operands: seq<Node>, k: nat): Node
    requires k <= |operands|
  {
    if k == 0 then first else operands[k - 1]
  }

  /** The comparisons of a chain: comparison `k` relates operand `k` to operand
      `k + 1` by `ops[k]`. */
  function Comparisons(first: Node, ops: seq<string>, operands: seq<Node>): (cs: seq<Node>)
    requires |ops| == |operands|
    ensures |cs| == |ops|
  {
    seq(|ops|, k requires 0 <= k < |ops| => BinaryExpr(LeftOperand(first, operands, k), ops[k], operands[k]))
  }

  /** A comparison chain: relational operators at `ps[..|ops|]`, each followed by
      an additive operand, and no relational operator at the last position. */
  predicate RelatChain(c: Ctx, ps: seq<nat>, ops: seq<string>, operands: seq<Node>) {
    && |ps| == |ops| + 1 && |operands| == |ops|
    && (forall k :: 0 <= k < |ps| ==> ps[k] <= |c.tokens|)
    && (forall k :: 0 <= k < |ops| ==>
          && ps[k] < |c.tokens| && c.tokens[ps[k]].token == ops[k] && IsRelationalOp(ops[k])
          && AddAt(c, PastSpaces(c.tokens, ps[k] + 1)) == Ok(Parsed(operands[k], ps[k + 1])))
    && !(ps[|ops|] < |c.tokens| && IsRelationalOp(c.tokens[ps[|ops|]].token))
  }

  /** Comparison `k` extends the comparisons before it. */
  lemma ComparisonsSnoc(first: Node, ops: seq<string>, operands: seq<Node>, k: nat)
    requires |ops| == |operands| && k < |ops|
    ensures Comparisons(first, ops[..k + 1], operands[..k + 1])
      == Comparisons(first, ops[..k], operands[..k]) + [BinaryExpr(LeftOperand(first, operands, k), ops[k], operands[k])]
  {
  }

  /** The `k`-th turn of the relational loop over a chain. */
  lemma RelatChainStep(c: Ctx, first: Node, ps: seq<nat>, ops: seq<string>, operands: seq<Node>, k: nat)
    requires RelatChain(c, ps, ops, operands) && k < |ops|
    ensures RelatRest(c, LeftOperand(first, operands, k), Comparisons(first, ops[..k], operands[..k]), ps[k])
      == RelatRest(c, LeftOperand(first, operands, k + 1), Comparisons(first, ops[..k + 1], operands[..k + 1]), ps[k + 1])
  {
    ComparisonsSnoc(first, ops, operands, k);
    assert AddAt(c, PastSpaces(c.tokens, ps[k] + 1)) == Ok(Parsed(operands[k], ps[k + 1]));
  }

  lemma {:induction false} RelatFolds(c: Ctx, first: Node, ps: seq<nat>, ops: seq<string>, operands: seq<Node>, k: nat)
    requires RelatChain(c, ps, ops, operands) && k <= |ops|
    ensures RelatRest(c, LeftOperand(first, operands, k), Comparisons(first, ops[..k], operands[..k]), ps[k])
      == Ok(ParsedList(Comparisons(first, ops, operands), ps[|ops|]))
    decreases |ops| - k
  {
    if k == |ops| {
      assert ops[..k] == ops && operands[..k] == operands;
    } else {
      RelatChainStep(c, first, ps, ops, operands, k);
      RelatFolds(c, first, ps, ops, operands, k + 1);
    }
  }

  /** `e0 r1 e1 r2 e2 ... rn en` with relational operators, of any length, is
      the chain of the comparisons `e(k-1) rk ek`, each operand shared by the two
      comparisons around it; with no relational operator it is `e0` alone. */
  lemma RelationalFold(c: Ctx, p: nat, first: Node, ps: seq<nat>, ops: seq<string>, operands: seq<Node>)
    requires p <= |c.tokens| && RelatChain(c, ps, ops, operands)
    requires AddAt(c, PastSpaces(c.tokens, p)) == Ok(Parsed(first, ps[0]))
    ensures ops == [] ==> RelatAt(c, p) == Ok(Parsed(first, ps[0]))
    ensures ops != [] ==> RelatAt(c, p) == Ok(Parsed(ChainRelatExpr(Comparisons(first, ops, operands)), ps[|ops|]))
  {
    if ops != [] {
      RelatFolds(c, first, ps, ops, operands, 0);
      assert ops[..0] == [] && operands[..0] == [];
      assert Comparisons(first, [], []) == [];
    }
  }

  /** `e0 ^ e1 ^ ... ^ en` grouped to the right. */
  function RightNested(es: seq<Node>): Node
    requires |es| >= 1
    decreases |es|
  {
    if |es| == 1 then es[0] else BinaryExpr(es[0], "^", RightNested(es[1..]))
  }

  /** A power chain: primary `es[k]` is read from `starts[k]` (spaces skipped) up
      to `ps[k]`; a `^` stands at every `ps[k]` but the last, and the next primary
      starts after it. */
  predicate PowChain(c: Ctx, starts: seq<nat>, ps: seq<nat>, es: seq<Node>) {
    && |starts| == |ps| == |es| >= 1
    && (forall k :: 0 <= k < |es| ==>
          && starts[k] <= |c.tokens| && ps[k] <= |c.tokens|
          && PrimaryAt(c, PastSpaces(c.tokens, starts[k]), false) == Ok(Parsed(es[k], ps[k])))
    && (forall k :: 0 <= k < |es| - 1 ==> At(c.tokens, ps[k], "^") && starts[k + 1] == PastSpaces(c.tokens, ps[k] + 1))
    && !At(c.tokens, ps[|es| - 1], "^")
  }

  lemma {:induction false} PowFolds(c: Ctx, starts: seq<nat>, ps: seq<nat>, es: seq<Node>, k: nat)
    requires PowChain(c, starts, ps, es) && k < |es|
    ensures ExpAt(c, starts[k]) == Ok(Parsed(RightNested(es[k..]), ps[|es| - 1]))
    decreases |es| - k
  {
    if k == |es| - 1 {
      assert es[k..] == [es[k]];
    } else {
      PowFolds(c, starts, ps, es, k + 1);
      assert es[k..][1..] == es[k + 1..];
      var n := RightNested(es[k..]);
      assert n == BinaryExpr(es[k], "^", RightNested(es[k + 1..]));
      assert ExpRest(c, n, ps[|es| - 1]) == Ok(Parsed(n, ps[|es| - 1]));
      assert ExpRest(c, es[k], ps[k]) == Ok(Parsed(n, ps[|es| - 1]));
    }
  }

  /** `e0 ^ e1 ^ ... ^ en`, of any length, is `e0 ^ (e1 ^ (... ^ en))`: `^`
      takes its right operand by a recursive call and so groups to the right. */
  lemma PowerFold(c: Ctx, starts: seq<nat>, ps: seq<nat>, es: seq<Node>)
    requires PowChain(c, starts, ps, es)
    ensures ExpAt(c, starts[0]) == Ok(Parsed(RightNested(es), ps[|es| - 1]))
  {
    PowFolds(c, starts, ps, es, 0);
    assert es[0..] == es;
  }
}

