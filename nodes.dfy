/** The syntax tree of the Ludus front ends (ludus/nodes.py), as one datatype.

    The classes of ludus/nodes.py come first, with the attributes their
    constructors set. The front ends and the semantic visitor also build and read
    node classes that ludus/nodes.py does not define (`ArrayDec`, `IfStmt`,
    `DeadLiteral`, ...); their shapes below are inferred from the places that
    construct them and the attributes the visitor reads, and nothing else about
    them is assumed. An attribute that no construction site sets holds `None`
    (as `Option.None` or `PyValue(Dead)`), and the readers treat it as Python would. */
module Nodes {
  import opened Results
  import opened Values
  import Decimal

  datatype Node =
    // ---- ludus/nodes.py ----
    | Program(body: seq<Node>)
    | BinaryExpr(left: Node, operator: string, right: Node)
    | Identifier(symbol: string)
    | HpLiteral(hp: int)
    | XpLiteral(xp: real)
    | CommsLiteral(comms: string)
    | FlagLiteral(flag: bool)
      // `PlayFunc.name` is the constant 'play' whatever the body, so it is not stored
    | PlayFunc(playBody: Node)
    | FunctionDec(name: Node, parameters: seq<Node>, funcBody: Node)
    | BlockStmt(statements: seq<Node>)
    | VarDec(name: Node, value: Node)
    | BatchVarDec(declarations: seq<Node>)
    // ---- inferred from their uses ----
    /** A plain Python value (`0`, `''`, `None`, a field-name string) standing where a node is expected. */
    | PyValue(raw: Value)
    | DeadLiteral(dtype: Option<string>)
    | UnaryExpr(operator: string, operand: Node)
    | ChainRelatExpr(comparisons: seq<Node>)
    | ArrElement(left: Node, index: seq<Node>)
    | StructInstField(instance: Node, field: Node)
    | FuncCallStmt(callee: Node, args: seq<Node>)
    | XpFormatting(target: Node, digits: int)
    | VarAssignment(left: Node, operator: string, right: Node)
    | ArrAssignment(left: Node, operator: string, right: Node)
    | InstAssignment(left: Node, operator: string, right: Node)
    | ImmoVarDec(name: Node, value: Node)
    | ArrayDec(name: Node, dimensions: seq<Option<int>>, elements: MaybeCells, immo: Option<bool>, dtype: Option<string>)
    | ArrayRedec(arrName: string, dimensions: seq<Option<int>>, elements: MaybeCells, immo: Option<bool>)
    | StructFields(fieldName: Node, fieldValue: Node, fieldType: Option<string>)
    | StructDec(name: Node, body: seq<Node>)
    | GlobalStructDec(name: Node)
    | StructInst(name: Node, parent: string, body: seq<Node>, immo: Option<bool>)
    | IfStmt(condition: Node, thenBranch: seq<Node>, elifBranches: MaybeNodes, elseBranch: MaybeNodes)
    | ElifBranch(condition: Node, body: seq<Node>)
    | FlankStmt(expression: Node, choices: seq<Node>, backupBody: seq<Node>)
    | Choice(values: seq<Node>, body: seq<Node>)
    | ResumeStmt
    | ForStmt(initialization: Node, condition: Node, update: Node, body: seq<Node>)
    | Initialization(loopVar: string, right: Node)

  /** An element of an array initialiser: a node, or a nested Python list of them. */
  datatype Cell = Leaf(node: Node) | Row(cells: seq<Cell>)

  /** A list attribute that may be `None` (kept apart from `Option` so that the
      nodes in the list are structurally below the node that holds it). */
  datatype MaybeNodes = NoNodes | SomeNodes(nodes: seq<Node>)

  /** An initialiser attribute that may be `None`. */
  datatype MaybeCells = NoCells | SomeCells(cells: seq<Cell>)

  /** The `kind` string of each node class: the first twelve are the `NodeType` tags
      of ludus/nodes.py; the assignment statements carry the kinds the visitor
      dispatches on. A plain Python value has no `kind`. */
  function KindName(n: Node): string
  {
    match n
    case Program(_) => "Program"
    case BinaryExpr(_, _, _) => "BinaryExpr"
    case Identifier(_) => "Identifier"
    case HpLiteral(_) => "HpLiteral"
    case XpLiteral(_) => "XpLiteral"
    case CommsLiteral(_) => "CommsLiteral"
    case FlagLiteral(_) => "FlagLiteral"
    case PlayFunc(_) => "PlayFunc"
    case FunctionDec(_, _, _) => "FunctionDec"
    case BlockStmt(_) => "BlockStmt"
    case VarDec(_, _) => "VarDec"
    case BatchVarDec(_) => "BatchVarDec"
    case PyValue(_) => ""
    case DeadLiteral(_) => "DeadLiteral"
    case UnaryExpr(_, _) => "UnaryExpr"
    case ChainRelatExpr(_) => "ChainRelatExpr"
    case ArrElement(_, _) => "ArrElement"
    case StructInstField(_, _) => "StructInstField"
    case FuncCallStmt(_, _) => "FuncCallStmt"
    case XpFormatting(_, _) => "XpFormatting"
    case VarAssignment(_, _, _) => "VarAssignmentStmt"
    case ArrAssignment(_, _, _) => "ArrayAssignmentStmt"
    case InstAssignment(_, _, _) => "InstAssignmentStmt"
    case ImmoVarDec(_, _) => "ImmoVarDec"
    case ArrayDec(_, _, _, _, _) => "ArrayDec"
    case ArrayRedec(_, _, _, _) => "ArrayRedec"
    case StructFields(_, _, _) => "StructFields"
    case StructDec(_, _) => "StructDec"
    case GlobalStructDec(_) => "GlobalStructDec"
    case StructInst(_, _, _, _) => "StructInst"
    case IfStmt(_, _, _, _) => "IfStmt"
    case ElifBranch(_, _) => "ElifBranch"
    case FlankStmt(_, _, _) => "FlankStmt"
    case Choice(_, _) => "Choice"
    case ResumeStmt => "ResumeStmt"
    case ForStmt(_, _, _, _) => "ForStmt"
    case Initialization(_, _) => "Initialization"
  }

  /** Python `isinstance(n, Stmt)`: every node object; a plain value is not one. */
  predicate IsStmt(n: Node) { !n.PyValue? }

  /** `node.kind`; reading it off a plain Python value is an `AttributeError`. */
  function Kind(n: Node): (r: Result<string>)
    ensures r.Ok? <==> IsStmt(n)
    ensures r.Ok? ==> r.value == KindName(n) && r.value != ""
  {
    if n.PyValue? then Fail(AttributeError, "object has no attribute 'kind'")
    else Ok(KindName(n))
  }

  /** Python `isinstance(n, Expr)`: the expression classes. */
  predicate IsExpr(n: Node) {
    n.BinaryExpr? || n.Identifier? || n.HpLiteral? || n.XpLiteral? || n.CommsLiteral? ||
    n.FlagLiteral? || n.DeadLiteral? || n.UnaryExpr? || n.ChainRelatExpr? ||
    n.ArrElement? || n.StructInstField? || n.XpFormatting?
  }

  /** `class Expr(Stmt)`: every expression is a statement node, with a kind. */
  lemma ExprIsStmt(n: Node)
    requires IsExpr(n)
    ensures IsStmt(n) && Kind(n).Ok?
  {
  }

  /** `HpLiteral(value)`: `int(value)` of a lexeme; other text is Python's `ValueError`. */
  function MakeHpLiteral(lexeme: string): (r: Result<Node>)
    ensures r.Ok? <==> Decimal.PyInt(lexeme).Ok?
    ensures r.Ok? ==> r.value == HpLiteral(Decimal.PyInt(lexeme).value)
  {
    var n :- Decimal.PyInt(lexeme);
    Ok(HpLiteral(n))
  }

  /** `XpLiteral(value)`: `float(value)` of a lexeme (exact, without rounding). */
  function MakeXpLiteral(lexeme: string): (r: Result<Node>)
    ensures r.Ok? <==> Decimal.PyFloat(lexeme).Ok?
    ensures r.Ok? ==> r.value == XpLiteral(Decimal.PyFloat(lexeme).value)
  {
    var x :- Decimal.PyFloat(lexeme);
    Ok(XpLiteral(x))
  }

  /** An hp literal built from the rendering of a number stores that number. */
  lemma HpLiteralRoundTrip(n: int)
    ensures MakeHpLiteral(Decimal.IntToString(n)) == Ok(HpLiteral(n))
  {
    Decimal.PyIntToString(n);
  }

  /** The values `generic_visit` walks: the attributes in `__dict__` order, keeping
      each `Stmt` value and each `Stmt` item of a list attribute (nested lists, plain
      values and `None` are skipped). */
  function GenericChildren(n: Node): (cs: seq<Node>)
    ensures forall k :: 0 <= k < |cs| ==> IsStmt(cs[k])
  {
    match n
    case ArrayDec(nm, _, els, _, _) => StmtAttr(nm) + (if els.SomeCells? then LeafItems(els.cells) else [])
    case ArrayRedec(_, _, els, _) => if els.SomeCells? then LeafItems(els.cells) else []
    case _ => StmtItems(NodeAttrs(n))
  }

  /** The node-typed attribute values of `n` in `__dict__` order, the items of a
      list attribute spliced in where the list stands. */
  function NodeAttrs(n: Node): seq<Node> {
    match n
    case Program(body) => body
    case BinaryExpr(l, _, r) => [l, r]
    case PlayFunc(b) => [b]
    case FunctionDec(nm, ps, b) => [nm] + ps + [b]
    case BlockStmt(ss) => ss
    case VarDec(nm, v) => [nm, v]
    case BatchVarDec(ds) => ds
    case UnaryExpr(_, e) => [e]
    case ChainRelatExpr(es) => es
    case ArrElement(l, ix) => [l] + ix
    case StructInstField(i, f) => [i, f]
    case FuncCallStmt(c, as_) => [c] + as_
    case XpFormatting(t, _) => [t]
    case VarAssignment(l, _, r) => [l, r]
    case ArrAssignment(l, _, r) => [l, r]
    case InstAssignment(l, _, r) => [l, r]
    case ImmoVarDec(nm, v) => [nm, v]
    case StructFields(nm, v, _) => [nm, v]
    case StructDec(nm, b) => [nm] + b
    case GlobalStructDec(nm) => [nm]
    case StructInst(nm, _, b, _) => [nm] + b
    case IfStmt(c, t, ei, el) =>
      [c] + t + (if ei.SomeNodes? then ei.nodes else []) + (if el.SomeNodes? then el.nodes else [])
    case ElifBranch(c, b) => [c] + b
    case FlankStmt(e, cs, bb) => [e] + cs + bb
    case Choice(vs, b) => vs + b
    case ForStmt(i, c, u, b) => [i, c, u] + b
    case Initialization(_, r) => [r]
    case _ => []
  }

  /** A single attribute: kept when it is a node object. */
  function StmtAttr(a: Node): (cs: seq<Node>)
    ensures |cs| <= 1 && forall k :: 0 <= k < |cs| ==> cs[k] == a && IsStmt(a)
  {
    if IsStmt(a) then [a] else []
  }

  /** The node objects of a list attribute, in order. */
  function StmtItems(xs: seq<Node>): (cs: seq<Node>)
    ensures forall k :: 0 <= k < |cs| ==> cs[k] in xs && IsStmt(cs[k])
  {
    if xs == [] then [] else StmtAttr(xs[0]) + StmtItems(xs[1..])
  }

  /** The top-level leaves of an element list (rows are Python lists, not nodes). */
  function LeafItems(cells: seq<Cell>): (cs: seq<Node>)
    ensures forall k :: 0 <= k < |cs| ==> IsStmt(cs[k])
  {
    if cells == [] then []
    else
      (if cells[0].Leaf? && IsStmt(cells[0].node) then [cells[0].node] else []) + LeafItems(cells[1..])
  }

  /** `generic_visit` keeps exactly the node objects of a list, in order. */
  lemma {:induction false} StmtItemsFilter(xs: seq<Node>)
    ensures |StmtItems(xs)| <= |xs|
    ensures (forall k :: 0 <= k < |xs| ==> IsStmt(xs[k])) ==> StmtItems(xs) == xs
  {
    if xs != [] {
      StmtItemsFilter(xs[1..]);
      assert xs == [xs[0]] + xs[1..];
    }
  }
}
