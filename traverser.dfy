/** The two visitor passes of ludus/runtime/traverser.py, as functions of the
    analyser's state: `ASTVisitor` (the first pass, which fills the table) and
    `SemanticAnalyzer` (the second pass, which checks assignments against it).

    The table is the dictionary of ludus/runtime/new_symboltable.py. Its `define`
    and `lookup` are the ones shown there. The visitor also calls `define_var`,
    `define_arr`, `define_structinst`, `enter_scope`, `exit_scope` and
    `restore_scope`, which that file does not define. They are modelled from their
    use: the three `define_*` calls bind the name to a record holding exactly the
    arguments (the keys the analyser reads back), and the scope calls are logged
    in order without changing which names are visible.

    A Python exception is an `Err` in the `out` of a `Run`; the `st` of the `Run`
    is the state at that moment, so changes made in place before the exception
    (an array cell, a struct field) stay visible. */
module Traverser {
  import opened Results
  import opened Values
  import opened Nodes
  import NST = NewSymbolTable
  import NI = NewInterpreter

  type Bound = NST.Bound

  /** An element of a stored array: a value, or a nested Python list. */
  datatype Item = Cell(b: Bound) | List(items: seq<Item>)

  /** An entry of a struct instance's field list: the raw value the first pass
      stores, or the `{"name": ..., "value": ...}` dictionary of the second pass. */
  datatype Slot = Raw(raw: Bound) | Named(name: string, value: Bound)

  /** What the table binds a name to: whatever `define` was given, or the record
      that `define_var`, `define_arr` or `define_structinst` builds. */
  datatype Entry =
    | Plain(b: Bound)
    | VarRec(value: Bound, vtype: Option<string>, immo: Option<bool>)
    | ArrRec(dims: seq<Option<int>>, elements: Option<seq<Item>>, immo: Option<bool>, atype: Option<string>)
    | InstRec(parent: string, fields: seq<Slot>, immo: Option<bool>)

  /** A call of `enter_scope`, `exit_scope` or `restore_scope(i)`. */
  datatype Scope = Enter | Exit | Restore(index: int)

  /** The table's bindings, the scope calls made on it so far, and the branch
      counter `i` of the analyser (1 in a new analyser; the first pass never
      changes it). */
  datatype St = St(entries: map<string, Entry>, scopes: seq<Scope>, i: int)

  /** What a visit leaves behind: its outcome and the state at that point. */
  datatype Run = Run(out: Result<()>, st: St)

  /** Which class's `visit_*` methods `visit` finds. */
  datatype Pass = First | Second

  function Lift(r: Result<St>, s: St): Run {
    if r.Ok? then Run(Ok(()), r.value) else Run(Err(r.exc), s)
  }

  // ---- messages ----------------------------------------------------------------

  const NoKind := "object has no attribute 'kind'"
  const ListNoKind := "'list' object has no attribute 'kind'"
  const NotIterable := "object is not iterable"
  const NoneNotIterable := "'NoneType' object is not iterable"
  const NotSubscriptable := "object is not subscriptable"
  const MixedArray := "All elements in an array declaration must have the same type."
  const MixedBatch := "All variables in a batch declaration must have the same type."
  const MixCommsFlags := "TypeError: Cannot mix comms and flags in an expression."
  const MixCommsNumbers := "TypeError: Cannot mix comms and numeric types in an expression."
  const CommsAssignOperator := "TypeError: Only valid assignment operator between comms is '+='."
  const DivByZero := "ZeroDivisionError: Division by zero is not allowed"
  const ModByZero := "ZeroDivisionError: Modulo by zero is not allowed."
  const ModuloOperands := "ModuloError: Only hp values can be used in modulo operation."
  const Unsupported := "unsupported operand type(s)"
  const NotFlag := "TypeError: The condition used does not evaluate to a flag value."
  const ForControl := "ForError: Only integer variables can be used for loop control."
  const ForCondition := "ForError: Loop condition does not evaluate to a flag value."
  const LoopBound := "the loop was still running when the iteration bound ran out"
  const Unordered := "'<' not supported between these operand types"
  const NoLen := "object has no len()"
  const FloatIndex := "list indices must be integers or slices, not float"
  const StrAssign := "'str' object does not support item assignment"
  const NoImmo := "'VarDec' object has no attribute 'immo'"
  const WrongNode := "object has no attribute"

  function Immutable(what: string, name: string): string {
    what + "'" + name + "' is declared as an immutable "
  }

  function UnknownType(t: Option<string>): string {
    "Unknown data type '" + (if t.Some? then t.value else "None") + "'."
  }

  function FieldMismatch(name: string): string {
    "FieldTypeError: Type mismatch for field '" + name + "'."
  }

  function OutOfBounds(name: string): string {
    "ArrayIndexError: Index out of bounds for array '" + name + "'."
  }

  // ---- Python's view of bound values -------------------------------------------

  /** `isinstance(b, str)`. */
  predicate IsStr(b: Bound) { b.Val? && b.v.Comms? }

  /** `isinstance(b, bool)`. */
  predicate IsBool(b: Bound) { b.Val? && b.v.Flag? }

  /** `isinstance(b, int)`: flags included. */
  predicate IsInt(b: Bound) { b.Val? && IntLike(b.v) }

  /** `TYPE_MAP.get(type(b), str(type(b)))`; a node's class is named by its kind. */
  function TypeOfBound(b: Bound): string {
    match b
    case Val(v) => TypeName(v)
    case Tree(n) => "<class '" + KindName(n) + "'>"
    case FieldDict(_) => "<class 'dict'>"
    case Opaque(what) => "<class '" + what + "'>"
  }

  /** `TYPE_MAP.get(type(b), None)`: the Ludus type of a hp, xp, comms or flag. */
  function MappedType(b: Bound): (t: Option<string>)
    ensures t.Some? <==> b.Val? && !b.v.Dead?
    ensures t.Some? ==> t.value == TypeOfBound(b) && IsTypeKeyword(t.value)
  {
    if b.Val? && !b.v.Dead? then Some(TypeName(b.v)) else None
  }

  /** Python truthiness. */
  predicate Truthy(b: Bound) {
    match b
    case Val(v) => (v.Hp? && v.hp != 0) || (v.Xp? && v.xp != 0.0) || (v.Comms? && v.comms != "") || (v.Flag? && v.flag)
    case Tree(_) => true
    case FieldDict(fs) => fs != []
    case Opaque(_) => true
  }

  /** Python `a == b`: numbers compare by value across hp, xp and flag. */
  predicate PyEq(a: Bound, b: Bound) {
    if a.Val? && b.Val? && IsNumber(a.v) && IsNumber(b.v) then RealOf(a.v) == RealOf(b.v)
    else a == b
  }

  /** A value node stands for itself; a plain Python value in its place is that value. */
  function AsBound(n: Node): (b: Bound)
    ensures b.Val? <==> n.PyValue?
  {
    if n.PyValue? then NST.Val(n.raw) else NST.Tree(n)
  }

  // ---- the table ---------------------------------------------------------------

  /** What `lookup` sees of each entry: a record is a Python dictionary. */
  function Seen(e: Entry): Bound {
    if e.Plain? then e.b else NST.Opaque("dict")
  }

  function View(entries: map<string, Entry>): map<string, Bound> {
    map name | name in entries :: Seen(entries[name])
  }

  /** `lookup`: missing names, `None` and unevaluated expressions are refused. */
  function Lookup(entries: map<string, Entry>, name: string): (r: Result<Entry>)
    ensures r.Ok? <==> name in entries && !(entries[name].Plain? && NST.Unusable(entries[name].b))
    ensures r.Ok? ==> r.value == entries[name]
    ensures r.Err? ==> r.exc.kind == PlainException
  {
    var b :- NST.Lookup(View(entries), name);
    Ok(entries[name])
  }

  function Reader(entries: map<string, Entry>): string -> Result<Bound> {
    name => NST.Lookup(View(entries), name)
  }

  /** `evaluate(n, self.symbol_table)`. */
  function Eval(entries: map<string, Entry>, n: Node): Result<Bound> {
    NI.Evaluate(n, Reader(entries))
  }

  function Define(s: St, name: string, b: Bound): St {
    s.(entries := s.entries[name := Plain(b)])
  }

  function DefineVar(s: St, name: string, v: Bound, t: Option<string>, immo: Option<bool>): St {
    s.(entries := s.entries[name := VarRec(v, t, immo)])
  }

  function DefineArr(s: St, name: string, dims: seq<Option<int>>, els: Option<seq<Item>>, immo: Option<bool>, t: Option<string>): St {
    s.(entries := s.entries[name := ArrRec(dims, els, immo, t)])
  }

  function DefineInst(s: St, name: string, parent: string, fields: seq<Slot>, immo: Option<bool>): St {
    s.(entries := s.entries[name := InstRec(parent, fields, immo)])
  }

  function Log(s: St, e: Scope): St {
    s.(scopes := s.scopes + [e])
  }

  // ---- reading a record's keys ---------------------------------------------------

  /** Subscripting something that is not a dictionary is a TypeError; a dictionary
      without the key is a KeyError. */
  function Missing<T>(e: Entry, key: string): Result<T> {
    if e.Plain? && (e.b.Val? || e.b.Tree?) then Fail(TypeError, NotSubscriptable) else Fail(KeyError, key)
  }

  /** `record["type"]`. */
  function TypeKey(e: Entry): Result<Option<string>> {
    if e.VarRec? then Ok(e.vtype) else if e.ArrRec? then Ok(e.atype) else Missing(e, "type")
  }

  /** `record["immo"]`. */
  function ImmoKey(e: Entry): Result<Option<bool>> {
    if e.Plain? then Missing(e, "immo") else Ok(e.immo)
  }

  /** `record["value"]`. */
  function ValueKey(e: Entry): Result<Bound> {
    if e.VarRec? then Ok(e.value) else Missing(e, "value")
  }

  /** `record["elements"]`. */
  function ElementsKey(e: Entry): Result<Option<seq<Item>>> {
    if e.ArrRec? then Ok(e.elements) else Missing(e, "elements")
  }

  /** `record["dimensions"]`. */
  function DimsKey(e: Entry): Result<seq<Option<int>>> {
    if e.ArrRec? then Ok(e.dims) else Missing(e, "dimensions")
  }

  /** `record["parent"]`. */
  function ParentKey(e: Entry): Result<string> {
    if e.InstRec? then Ok(e.parent) else Missing(e, "parent")
  }

  /** `record["fields"]`. */
  function FieldsKey(e: Entry): Result<seq<Slot>> {
    if e.InstRec? then Ok(e.fields) else Missing(e, "fields")
  }

  // ---- attributes of nodes -------------------------------------------------------

  /** `n.symbol`: only an identifier has one. */
  function Sym(n: Node): (r: Result<string>)
    ensures r.Ok? <==> n.Identifier?
  {
    if n.Identifier? then Ok(n.symbol) else Fail(AttributeError, "object has no attribute 'symbol'")
  }

  predicate HasName(n: Node) {
    n.VarDec? || n.ImmoVarDec? || n.FunctionDec? || n.ArrayDec? || n.StructDec? || n.GlobalStructDec? || n.StructInst?
  }

  /** `n.name.symbol`. */
  function NameOf(n: Node): Result<string> {
    if HasName(n) then Sym(n.name) else Fail(AttributeError, "object has no attribute 'name'")
  }

  /** The node classes with `left`, `operator` and `right` attributes, which is
      all `visit_VarAssignmentStmt` reads. */
  predicate HasAssignParts(n: Node) {
    n.VarAssignment? || n.ArrAssignment? || n.InstAssignment? || n.BinaryExpr?
  }

  // ---- evaluating array initialisers ------------------------------------------------

  /** Evaluated elements and the type name of each, in order. */
  datatype Evaluated = Evaluated(items: seq<Item>, types: seq<string>)

  /** `evaluate(val, ...)` on one element; a nested list has no `kind`. */
  function EvalCell(entries: map<string, Entry>, c: Cell): Result<Bound> {
    if c.Row? then Fail(AttributeError, ListNoKind) else Eval(entries, c.node)
  }

  /** The loop over a one-dimensional initialiser (or one row), from element `k` on. */
  function FlatFrom(entries: map<string, Entry>, cells: seq<Cell>, k: nat, acc: Evaluated): Result<Evaluated>
    requires k <= |cells|
    decreases |cells| - k
  {
    if k == |cells| then Ok(acc)
    else
      var b :- EvalCell(entries, cells[k]);
      FlatFrom(entries, cells, k + 1, Evaluated(acc.items + [Cell(b)], acc.types + [TypeOfBound(b)]))
  }

  /** The loop over the rows of a multi-dimensional initialiser, from row `k` on:
      each row becomes a list; iterating a node in place of a row is a TypeError. */
  function RowsFrom(entries: map<string, Entry>, rows: seq<Cell>, k: nat, acc: Evaluated): Result<Evaluated>
    requires k <= |rows|
    decreases |rows| - k
  {
    if k == |rows| then Ok(acc)
    else if rows[k].Leaf? then Fail(TypeError, NotIterable)
    else
      var inner :- FlatFrom(entries, rows[k].cells, 0, Evaluated([], []));
      RowsFrom(entries, rows, k + 1, Evaluated(acc.items + [List(inner.items)], acc.types + inner.types))
  }

  function EvalInit(entries: map<string, Entry>, dims: seq<Option<int>>, cells: seq<Cell>): Result<Evaluated> {
    if |dims| == 1 then FlatFrom(entries, cells, 0, Evaluated([], []))
    else RowsFrom(entries, cells, 0, Evaluated([], []))
  }

  /** The set `declared_types`. */
  function TypeSet(ts: seq<string>): set<string> {
    set t | t in ts
  }

  /** `is_empty`: `[]` for one dimension, `[[], []]` otherwise. */
  predicate EmptyInit(dims: seq<Option<int>>, cells: seq<Cell>) {
    if |dims| == 1 then cells == [] else cells == [Row([]), Row([])]
  }

  /** The type stored with a declared array: the declared one for an empty
      initialiser, else the single element type, else `None`. */
  function ArrayType(dims: seq<Option<int>>, cells: seq<Cell>, declared: Option<string>, ts: seq<string>): Option<string> {
    if EmptyInit(dims, cells) then declared else if ts == [] then None else Some(ts[0])
  }

  // ---- first pass: declarations --------------------------------------------------

  /** `ASTVisitor.visit_VarDec`: the name is bound to the value node, unevaluated. */
  function DeclareVar(s: St, n: Node): Result<St>
    requires n.VarDec?
  {
    var name :- Sym(n.name);
    Ok(Define(s, name, AsBound(n.value)))
  }

  /** `visit_ArrayDec` (used by both passes). */
  function DeclareArray(s: St, n: Node): Result<St>
    requires n.ArrayDec?
  {
    if n.elements.NoCells? then
      var name :- Sym(n.name);
      Ok(DefineArr(s, name, n.dimensions, None, n.immo, n.dtype))
    else
      var ev :- EvalInit(s.entries, n.dimensions, n.elements.cells);
      if |TypeSet(ev.types)| > 1 then Fail(SemanticError, MixedArray)
      else
        var name :- Sym(n.name);
        Ok(DefineArr(s, name, n.dimensions, Some(ev.items), n.immo, ArrayType(n.dimensions, n.elements.cells, n.dtype, ev.types)))
  }

  /** The default value of a field declared without one. */
  function DefaultOf(t: string): Value
    requires IsTypeKeyword(t)
  {
    if t == "hp" then Hp(0) else if t == "xp" then Xp(0.0) else if t == "comms" then Comms("") else Flag(false)
  }

  /** `fields[name] = {...}` on a Python dictionary: an existing key keeps its
      place and gets the new entry; a new key goes last. */
  function Put(fs: seq<NST.FieldInfo>, f: NST.FieldInfo): (r: seq<NST.FieldInfo>)
    ensures f in r
    ensures forall g :: g in r ==> g == f || g in fs
    ensures forall g :: g in fs && g.name != f.name ==> g in r
  {
    if fs == [] then [f]
    else if fs[0].name == f.name then [f] + fs[1..]
    else [fs[0]] + Put(fs[1..], f)
  }

  /** One field declaration of `visit_StructDec`: a field without a value takes
      its type's default; one with a value must have the declared type. */
  function FieldOf(entries: map<string, Entry>, f: Node): (r: Result<NST.FieldInfo>)
    ensures r.Ok? ==> f.StructFields? && r.value.dtype == f.fieldType
    ensures r.Ok? ==> Some(TypeOfBound(r.value.value)) == f.fieldType
  {
    if !f.StructFields? then Fail(AttributeError, "object has no attribute 'value'")
    else if f.fieldValue == PyValue(Dead) then
      if f.fieldType.None? || !IsTypeKeyword(f.fieldType.value) then Fail(SemanticError, UnknownType(f.fieldType))
      else
        var name :- Sym(f.fieldName);
        Ok(NST.FieldInfo(name, NST.Val(DefaultOf(f.fieldType.value)), f.fieldType))
    else
      var v :- Eval(entries, f.fieldValue);
      var name :- Sym(f.fieldName);
      if f.fieldType != Some(TypeOfBound(v)) then Fail(SemanticError, FieldMismatch(name))
      else Ok(NST.FieldInfo(name, v, f.fieldType))
  }

  /** The loop of `visit_StructDec` over the field declarations, from `k` on. */
  function FieldsFrom(entries: map<string, Entry>, body: seq<Node>, k: nat, fields: seq<NST.FieldInfo>): Result<seq<NST.FieldInfo>>
    requires k <= |body|
    decreases |body| - k
  {
    if k == |body| then Ok(fields)
    else
      var f :- FieldOf(entries, body[k]);
      FieldsFrom(entries, body, k + 1, Put(fields, f))
  }

  /** `visit_StructDec` (used by both passes). */
  function DeclareStruct(s: St, n: Node): Result<St>
    requires n.StructDec?
  {
    var fields :- FieldsFrom(s.entries, n.body, 0, []);
    var name :- Sym(n.name);
    Ok(Define(s, name, NST.FieldDict(fields)))
  }

  /** `ASTVisitor.visit_GlobalStructDec`: an empty field dictionary. */
  function DeclareGlobal(s: St, n: Node): Result<St>
    requires n.GlobalStructDec?
  {
    var name :- Sym(n.name);
    Ok(Define(s, name, NST.FieldDict([])))
  }

  /** The loop of `ASTVisitor.visit_StructInst`: each field's value, as it stands. */
  function RawFrom(body: seq<Node>, k: nat, acc: seq<Slot>): Result<seq<Slot>>
    requires k <= |body|
    decreases |body| - k
  {
    if k == |body| then Ok(acc)
    else if !body[k].StructFields? then Fail(AttributeError, "object has no attribute 'value'")
    else RawFrom(body, k + 1, acc + [Raw(AsBound(body[k].fieldValue))])
  }

  /** `ASTVisitor.visit_StructInst`. */
  function DeclareInstance(s: St, n: Node): Result<St>
    requires n.StructInst?
  {
    var fields :- RawFrom(n.body, 0, []);
    var name :- Sym(n.name);
    Ok(DefineInst(s, name, n.parent, fields, n.immo))
  }

  // ---- second pass: assignments ----------------------------------------------------

  /** The type `SemanticAnalyzer.visit_VarDec` gives a declared value: a `dead`
      literal keeps its declared type, anything else is named by `TYPE_MAP`. */
  function DeclaredValueType(value: Node, v: Bound): Option<string> {
    if value.DeadLiteral? then value.dtype else Some(TypeOfBound(v))
  }

  /** `SemanticAnalyzer.visit_VarDec` as written: the call to `define_var` reads
      `node.immo`, an attribute a `VarDec` does not have. */
  function RedeclareVarAsWritten(s: St, n: Node): Result<St>
    requires n.VarDec?
  {
    var v :- Eval(s.entries, n.value);
    var name :- Sym(n.name);
    Fail(AttributeError, NoImmo)
  }

  /** `SemanticAnalyzer.visit_VarDec` as evidently intended: the evaluated value
      is stored with its type, as a mutable variable. */
  function RedeclareVar(s: St, n: Node): Result<St>
    requires n.VarDec?
  {
    var v :- Eval(s.entries, n.value);
    var name :- Sym(n.name);
    Ok(DefineVar(s, name, v, DeclaredValueType(n.value, v), None))
  }

  predicate IsCompound(op: string) {
    op == "+=" || op == "-=" || op == "*=" || op == "/=" || op == "%="
  }

  function BaseOp(op: string): (b: string)
    ensures b == "+" || b == "-" || b == "*"
  {
    if op == "+=" then "+" else if op == "-=" then "-" else "*"
  }

  /** The compound-assignment rules shared by variables, array cells and struct
      fields: `prev` is the stored value, `rhs` the evaluated right-hand side. (The
      array version tests the stored value for the comms-only-`+=` rule; once the
      two previous tests pass, both are comms or neither is, so it is the same.) */
  function Compound(prev: Bound, rhs: Bound, op: string): (r: Result<Bound>)
    requires IsCompound(op)
  {
    if (IsStr(rhs) && IsBool(prev)) || (IsBool(rhs) && IsStr(prev)) then Fail(SemanticError, MixCommsFlags)
    else if IsStr(rhs) != IsStr(prev) then Fail(SemanticError, MixCommsNumbers)
    else if IsStr(rhs) && op != "+=" then Fail(SemanticError, CommsAssignOperator)
    else if op == "/=" then
      if IsInt(prev) && IsInt(rhs) then
        if IntOf(rhs.v) == 0 then Fail(SemanticError, DivByZero)
        else Ok(NST.Val(Hp(TruncDiv(IntOf(prev.v), IntOf(rhs.v)))))
      else if NI.IsZeroBound(rhs) then Fail(SemanticError, DivByZero)
      else if !(prev.Val? && rhs.Val?) then Fail(TypeError, Unsupported)
      else
        var q :- TrueDiv(prev.v, rhs.v);
        Ok(NST.Val(q))
    else if op == "%=" then
      if IsInt(prev) && IsInt(rhs) then
        if IntOf(rhs.v) == 0 then Fail(SemanticError, ModByZero)
        else Ok(NST.Val(Hp(FloorMod(IntOf(prev.v), IntOf(rhs.v)))))
      else Fail(SemanticError, ModuloOperands)
    else if IsStr(rhs) then Ok(NST.Val(Comms(prev.v.comms + rhs.v.comms)))
    else if !(prev.Val? && rhs.Val?) then Fail(TypeError, Unsupported)
    else
      var x :- Arith(BaseOp(op), prev.v, rhs.v);
      Ok(NST.Val(x))
  }

  /** The value an assignment stores: the right-hand side, combined with the old
      value for a compound operator. */
  function Assigned(prev: Result<Bound>, rhs: Bound, op: string): Result<Bound> {
    if IsCompound(op) then (var o :- prev; Compound(o, rhs, op)) else Ok(rhs)
  }

  /** `visit_VarAssignmentStmt`. */
  function AssignVar(s: St, n: Node): Result<St>
    requires HasAssignParts(n)
  {
    var name :- Sym(n.left);
    var rec :- Lookup(s.entries, name);
    var vtype :- TypeKey(rec);
    var immo :- ImmoKey(rec);
    if immo == Some(true) then Fail(SemanticError, Immutable("AssignmentError: ", name) + "variable.")
    else
      var nv :- Eval(s.entries, n.right);
      var res :- Assigned(ValueKey(rec), nv, n.operator);
      if Some(TypeOfBound(res)) != vtype then Fail(SemanticError, "TypeMismatchError: Type mismatch for variable '" + name + "'.")
      else Ok(DefineVar(s, name, res, Some(TypeOfBound(res)), immo))
  }

  /** The type a batch member was given: `lookup(var_dec.name.symbol)["type"]`. */
  function DeclaredType(entries: map<string, Entry>, d: Node): Result<Option<string>> {
    var name :- NameOf(d);
    var rec :- Lookup(entries, name);
    TypeKey(rec)
  }

  // ---- array cells ---------------------------------------------------------------

  /** `len(target)`: a list, or a comms value (a Python string). */
  function Len(t: Item): Option<nat> {
    if t.List? then Some(|t.items|)
    else if IsStr(t.b) then Some(|t.b.v.comms|)
    else None
  }

  /** `idx < 0 or idx >= len(target)`, raising as the analyser does. */
  function CheckIndex(b: Bound, target: Item, name: string): (r: Result<()>)
    ensures r.Ok? <==> b.Val? && IsNumber(b.v) && 0.0 <= RealOf(b.v) && Len(target).Some? && RealOf(b.v) < Len(target).value as real
  {
    if !(b.Val? && IsNumber(b.v)) then Fail(TypeError, Unordered)
    else if RealOf(b.v) < 0.0 then Fail(SemanticError, OutOfBounds(name))
    else if Len(target).None? then Fail(TypeError, NoLen)
    else if RealOf(b.v) >= Len(target).value as real then Fail(SemanticError, OutOfBounds(name))
    else Ok(())
  }

  /** `target[k]`: an element of a list, or one character of a string. */
  function Step(t: Item, k: int): Item {
    if t.List? && 0 <= k < |t.items| then t.items[k]
    else if t.Cell? && IsStr(t.b) && 0 <= k < |t.b.v.comms| then Cell(NST.Val(Comms([t.b.v.comms[k]])))
    else t
  }

  /** The element reached by a sequence of indexing steps. */
  function Follow(t: Item, path: seq<int>): Item
    decreases |path|
  {
    if path == [] then t else Follow(Step(t, path[0]), path[1..])
  }

  /** The element at `path` when every step goes through a list. */
  function Get(t: Item, path: seq<int>): Option<Item>
    decreases |path|
  {
    if path == [] then Some(t)
    else if t.List? && 0 <= path[0] < |t.items| then Get(t.items[path[0]], path[1..])
    else None
  }

  /** Writing `v` at `path` inside nested lists (`target[final_idx] = value`). */
  function PutAt(t: Item, path: seq<int>, v: Item): (r: Item)
    ensures path != [] && t.List? ==> r.List? && |r.items| == |t.items|
    decreases |path|
  {
    if path == [] then v
    else if t.List? && 0 <= path[0] < |t.items| then
      List(t.items[path[0] := PutAt(t.items[path[0]], path[1..], v)])
    else t
  }

  /** The loop over all indices but the last, from `k` on: each is evaluated,
      bounds-checked and stepped into. */
  function WalkFrom(entries: map<string, Entry>, name: string, idx: seq<Node>, k: nat, root: Item, path: seq<int>): Result<seq<int>>
    requires k <= |idx|
    decreases |idx| - k
  {
    if k + 1 >= |idx| then Ok(path)
    else
      var b :- Eval(entries, idx[k]);
      var ok :- CheckIndex(b, Follow(root, path), name);
      if b.v.Xp? then Fail(TypeError, FloatIndex)
      else WalkFrom(entries, name, idx, k + 1, root, path + [IntOf(b.v)])
  }

  /** Where `visit_ArrayAssignmentStmt` is about to write: the array's name and
      record, the path to the innermost list, and the checked final index. */
  datatype Target = Target(name: string, rec: Entry, data: seq<Item>, path: seq<int>, last: Bound)

  predicate TargetOk(t: Target) {
    t.rec.ArrRec? && t.rec.elements == Some(t.data)
    && t.last.Val? && IsNumber(t.last.v)
    && Len(Follow(List(t.data), t.path)).Some?
    && 0.0 <= RealOf(t.last.v) < Len(Follow(List(t.data), t.path)).value as real
  }

  /** The checks of `visit_ArrayAssignmentStmt` up to the final bounds check. */
  function Locate(s: St, n: Node): (r: Result<Target>)
    requires n.ArrAssignment?
    ensures r.Ok? ==> TargetOk(r.value) && Lookup(s.entries, r.value.name) == Ok(r.value.rec)
  {
    if !n.left.ArrElement? then Fail(AttributeError, WrongNode + " 'left'")
    else
      var name :- Sym(n.left.left);
      var rec :- Lookup(s.entries, name);
      var immo :- ImmoKey(rec);
      var atype :- TypeKey(rec);
      if immo == Some(true) then Fail(SemanticError, Immutable("ArrayAssignmentError: ", name) + "array.")
      else
        var data :- ElementsKey(rec);
        if data.None? then Fail(SemanticError, "ArrayAssignmentError: Array '" + name + "' is a dead array.")
        else
          var dims :- DimsKey(rec);
          var idx := n.left.index;
          if |dims| != |idx| then Fail(SemanticError, "ArrayIndexError: Incorrect number of dimensions for '" + name + "'.")
          else
            var path :- WalkFrom(s.entries, name, idx, 0, List(data.value), []);
            if |idx| == 0 then Fail(IndexError, "list index out of range")
            else
              var last :- Eval(s.entries, idx[|idx| - 1]);
              var ok :- CheckIndex(last, Follow(List(data.value), path), name);
              Ok(Target(name, rec, data.value, path, last))
  }

  /** `target[final_idx]` as a value: a nested list is an opaque Python object. */
  function Current(t: Target): Bound
    requires TargetOk(t) && !t.last.v.Xp?
  {
    var it := Step(Follow(List(t.data), t.path), IntOf(t.last.v));
    if it.Cell? then it.b else NST.Opaque("list")
  }

  /** `visit_ArrayAssignmentStmt`: the cell is written in the stored list before
      the element type is checked. */
  function AssignCell(s: St, n: Node): Run
    requires n.ArrAssignment?
  {
    var loc := Locate(s, n);
    if loc.Err? then Run(Err(loc.exc), s)
    else
      var t := loc.value;
      var nv := Eval(s.entries, n.right);
      if nv.Err? then Run(Err(nv.exc), s)
      else if t.last.v.Xp? then Run(Fail(TypeError, FloatIndex), s)
      else
        var v := Assigned(Ok(Current(t)), nv.value, n.operator);
        if v.Err? then Run(Err(v.exc), s)
        else if Follow(List(t.data), t.path).Cell? then Run(Fail(TypeError, StrAssign), s)
        else
          var data := PutAt(List(t.data), t.path + [IntOf(t.last.v)], Cell(v.value)).items;
          var written := s.(entries := s.entries[t.name := t.rec.(elements := Some(data))]);
          if Some(TypeOfBound(v.value)) != t.rec.atype then
            Run(Fail(SemanticError, "TypeMismatchError: Array '" + t.name + "' expects another data type."), written)
          else
            Run(Ok(()), DefineArr(written, t.name, t.rec.dims, Some(data), t.rec.immo, t.rec.atype))
  }

  /** `for elem_type in declared_types: if elem_type != arr_type: raise`. */
  predicate AllOfType(ts: seq<string>, t: Option<string>) {
    forall j :: 0 <= j < |ts| ==> Some(ts[j]) == t
  }

  /** `visit_ArrayRedec`. */
  function Redeclare(s: St, n: Node): Result<St>
    requires n.ArrayRedec?
  {
    var rec :- Lookup(s.entries, n.arrName);
    var immo :- ImmoKey(rec);
    var atype :- TypeKey(rec);
    var dims :- DimsKey(rec);
    if immo == Some(true) then Fail(SemanticError, Immutable("RedeclerationError: ", n.arrName) + "array.")
    else if |n.dimensions| != |dims| then Fail(SemanticError, "RedeclerationError: Incorrect number of dimensions.")
    else if n.elements.NoCells? then Fail(TypeError, NoneNotIterable)
    else
      var ev :- EvalInit(s.entries, n.dimensions, n.elements.cells);
      if !AllOfType(ev.types, atype) then Fail(SemanticError, "TypeError: Array '" + n.arrName + "' expects another datatype.")
      else Ok(DefineArr(s, n.arrName, n.dimensions, Some(ev.items), n.immo, atype))
  }

  // ---- struct instances ------------------------------------------------------------

  /** A field slot used as a value: a dictionary slot is an opaque Python object. */
  function SlotValue(f: Slot): Bound {
    if f.Raw? then f.raw else NST.Opaque("dict")
  }

  /** The loop of `SemanticAnalyzer.visit_StructInst` over the parent's fields, from
      `k` on: the given values by position, type-checked, then the parent's values. */
  function FillFrom(given: seq<Slot>, decl: seq<NST.FieldInfo>, k: nat, acc: seq<Slot>): Result<seq<Slot>>
    requires k <= |decl|
    decreases |decl| - k
  {
    if k == |decl| then Ok(acc)
    else if k < |given| then
      if MappedType(SlotValue(given[k])) != decl[k].dtype then Fail(SemanticError, FieldMismatch(decl[k].name))
      else FillFrom(given, decl, k + 1, acc + [Named(decl[k].name, SlotValue(given[k]))])
    else FillFrom(given, decl, k + 1, acc + [Named(decl[k].name, decl[k].value)])
  }

  /** `SemanticAnalyzer.visit_StructInst`. */
  function Instantiate(s: St, n: Node): Result<St>
    requires n.StructInst?
  {
    var name :- Sym(n.name);
    var rec :- Lookup(s.entries, name);
    var parent :- ParentKey(rec);
    var prec :- Lookup(s.entries, parent);
    var given :- FieldsKey(rec);
    if !(prec.Plain? && prec.b.FieldDict?) then Fail(AttributeError, "object has no attribute 'keys'")
    else if |given| > |prec.b.fields| then Fail(SemanticError, "Too many values provided for struct '" + parent + "'.")
    else
      var filled :- FillFrom(given, prec.b.fields, 0, []);
      Ok(DefineInst(s, name, n.parent, filled, n.immo))
  }

  /** `[field["name"] for field in fields]`, from `k` on. */
  function NamesFrom(fields: seq<Slot>, k: nat, acc: seq<string>): (r: Result<seq<string>>)
    requires k <= |fields|
    ensures r.Ok? <==> forall j :: k <= j < |fields| ==> fields[j].Named?
    decreases |fields| - k
  {
    if k == |fields| then Ok(acc)
    else if fields[k].Raw? then Fail(TypeError, NotSubscriptable)
    else NamesFrom(fields, k + 1, acc + [fields[k].name])
  }

  /** What `visit_InstAssignmentStmt` has checked before its loop. */
  datatype Goal = Goal(inst: string, rec: Entry, field: string, op: string)

  predicate GoalOk(g: Goal) {
    g.rec.InstRec? && forall j :: 0 <= j < |g.rec.fields| ==> g.rec.fields[j].Named?
  }

  /** The checks of `visit_InstAssignmentStmt` up to evaluating the right-hand side. */
  function Aim(s: St, n: Node): (r: Result<(Goal, Bound)>)
    requires n.InstAssignment?
    ensures r.Ok? ==> GoalOk(r.value.0) && r.value.0.op == n.operator
  {
    if !n.left.StructInstField? then Fail(AttributeError, WrongNode + " 'instance'")
    else
      var inst :- Sym(n.left.instance);
      var rec :- Lookup(s.entries, inst);
      var immo :- ImmoKey(rec);
      if immo == Some(true) then Fail(SemanticError, Immutable("InstanceAssignmentError: ", inst) + "struct instance.")
      else
        var fields :- FieldsKey(rec);
        var names :- NamesFrom(fields, 0, []);
        var field :- Sym(n.left.field);
        if field !in names then Fail(SemanticError, "FieldError: Field '" + field + "' does not exist in struct instance '" + inst + "'.")
        else
          var nv :- Eval(s.entries, n.right);
          Ok((Goal(inst, rec, field, n.operator), nv))
  }

  /** The loop over the instance's fields from `k` on: each field with the target
      name is combined with the value carried so far, type-checked and written in
      place; at the end the record is stored again. */
  function FieldLoop(s: St, g: Goal, fs: seq<Slot>, nv: Bound, k: nat): Run
    requires GoalOk(g) && k <= |fs| && forall j :: 0 <= j < |fs| ==> fs[j].Named?
    decreases |fs| - k
  {
    if k == |fs| then Run(Ok(()), DefineInst(s, g.inst, g.rec.parent, fs, g.rec.immo))
    else if fs[k].name != g.field then FieldLoop(s, g, fs, nv, k + 1)
    else
      var prev := fs[k].value;
      var v := Assigned(Ok(prev), nv, g.op);
      if v.Err? then Run(Err(v.exc), s)
      else if MappedType(v.value) != MappedType(prev) then Run(Fail(SemanticError, FieldMismatch(g.field)), s)
      else
        var fs' := fs[k := Named(fs[k].name, v.value)];
        FieldLoop(s.(entries := s.entries[g.inst := InstRec(g.rec.parent, fs', g.rec.immo)]), g, fs', v.value, k + 1)
  }

  /** `visit_InstAssignmentStmt`. */
  function AssignField(s: St, n: Node): Run
    requires n.InstAssignment?
  {
    var a := Aim(s, n);
    if a.Err? then Run(Err(a.exc), s)
    else FieldLoop(s, a.value.0, a.value.0.rec.fields, a.value.1, 0)
  }

  // ---- conditions ------------------------------------------------------------------

  /** The elif conditions from `k` on, each evaluated and required to be a flag. */
  function ElifConditionsFrom(entries: map<string, Entry>, bs: seq<Node>, k: nat, acc: seq<bool>): Result<seq<bool>>
    requires k <= |bs|
    decreases |bs| - k
  {
    if k == |bs| then Ok(acc)
    else if !bs[k].ElifBranch? then Fail(AttributeError, WrongNode + " 'condition'")
    else
      var c :- Eval(entries, bs[k].condition);
      if !IsBool(c) then Fail(SemanticError, NotFlag)
      else ElifConditionsFrom(entries, bs, k + 1, acc + [c.v.flag])
  }

  /** All conditions of an `if`, evaluated before any branch runs. */
  function Conditions(entries: map<string, Entry>, n: Node): Result<seq<bool>>
    requires n.IfStmt?
  {
    var c :- Eval(entries, n.condition);
    if !IsBool(c) then Fail(SemanticError, NotFlag)
    else if n.elifBranches.NoNodes? then Ok([c.v.flag])
    else ElifConditionsFrom(entries, n.elifBranches.nodes, 0, [c.v.flag])
  }

  /** The `if` branches line up with the list of conditions. */
  predicate Branches(n: Node, cs: seq<bool>) {
    n.IfStmt?
    && |cs| == 1 + (if n.elifBranches.SomeNodes? then |n.elifBranches.nodes| else 0)
    && (n.elifBranches.SomeNodes? ==> forall j :: 0 <= j < |n.elifBranches.nodes| ==> n.elifBranches.nodes[j].ElifBranch?)
  }

  /** The body of branch `k`: the `then` branch, then the elif bodies. */
  function BranchBody(n: Node, cs: seq<bool>, k: nat): (b: seq<Node>)
    requires Branches(n, cs) && k < |cs|
    ensures forall j :: 0 <= j < |b| ==> b[j] < n
  {
    if k == 0 then n.thenBranch
    else
      var e := n.elifBranches.nodes[k - 1];
      assert e < n;
      e.body
  }

  /** A `choice` body that contains a `resume` statement. */
  predicate HasResume(body: seq<Node>) {
    exists j :: 0 <= j < |body| && body[j].ResumeStmt?
  }

  /** The choice values from `k` on, evaluated in order until one equals `e`. */
  function Matches(entries: map<string, Entry>, vs: seq<Node>, e: Bound, k: nat): Result<bool>
    requires k <= |vs|
    decreases |vs| - k
  {
    if k == |vs| then Ok(false)
    else
      var v :- Eval(entries, vs[k]);
      if PyEq(v, e) then Ok(true) else Matches(entries, vs, e, k + 1)
  }

  /** What the `for` statement reads before its first test: the loop variable's
      record, its type and `immo`, and the start value. */
  datatype ForStart = ForStart(name: string, rec: Entry, vtype: Option<string>, immo: Option<bool>, start: Bound)

  function ForHead(s: St, n: Node): (r: Result<ForStart>)
    requires n.ForStmt? && n.initialization.Initialization?
    ensures r.Ok? ==> r.value.vtype == Some("hp") && IsInt(r.value.start) && r.value.name == n.initialization.loopVar
  {
    var name := n.initialization.loopVar;
    var rec :- Lookup(s.entries, name);
    var vtype :- TypeKey(rec);
    var immo :- ImmoKey(rec);
    if immo == Some(true) then Fail(SemanticError, "TypeError: '" + name + "' is declared as an immutable variable.")
    else
      var nv :- Eval(s.entries, n.initialization.right);
      if vtype != Some("hp") || !IsInt(nv) then Fail(SemanticError, ForControl)
      else Ok(ForStart(name, rec, vtype, immo, nv))
  }

  /** `self.visit_VarAssignmentStmt(node.update)`. */
  function Update(s: St, u: Node): Result<St> {
    if HasAssignParts(u) then AssignVar(s, u) else Fail(AttributeError, WrongNode + " 'left'")
  }

  // ---- the visits --------------------------------------------------------------------

  ghost predicate Below(xs: seq<Node>, parent: Node) {
    forall k :: 0 <= k < |xs| ==> xs[k] < parent
  }

  /** `visit`: the kind's `visit_*` method of the pass, else `generic_visit`. Node
      kinds are distinct strings, so dispatching on the constructor is
      dispatching on `node.kind`. */
  function Visit(p: Pass, s: St, n: Node, fuel: nat): Run
    decreases n, 5, 0
  {
    if n.PyValue? then Run(Fail(AttributeError, NoKind), s)
    else if n.Program? then VisitBody(p, s, n.body, n, fuel)
    else if n.ArrayDec? then Lift(DeclareArray(s, n), s)
    else if n.StructDec? then Lift(DeclareStruct(s, n), s)
    else if p.First? then VisitFirst(s, n, fuel)
    else VisitSecond(s, n, fuel)
  }

  /** The other `visit_*` methods of `ASTVisitor`. */
  function VisitFirst(s: St, n: Node, fuel: nat): Run
    decreases n, 4, 0
  {
    if n.VarDec? then Lift(DeclareVar(s, n), s)
    else if n.GlobalStructDec? then Lift(DeclareGlobal(s, n), s)
    else if n.StructInst? then Lift(DeclareInstance(s, n), s)
    else if n.BlockStmt? then Scoped(First, s, n.statements, n, fuel)
    else if n.IfStmt? then IfFirst(s, n, fuel)
    else if n.FlankStmt? then FlankFirst(s, n, fuel)
    else if n.ForStmt? then Scoped(First, s, n.body, n, fuel)
    else Generic(First, s, n, fuel)
  }

  /** The `visit_*` methods `SemanticAnalyzer` defines. */
  function VisitSecond(s: St, n: Node, fuel: nat): Run
    decreases n, 4, 0
  {
    if n.VarDec? then Lift(RedeclareVar(s, n), s)
    else if n.VarAssignment? then Lift(AssignVar(s, n), s)
    else if n.BatchVarDec? then BatchFrom(s, n, 0, {}, fuel)
    else if n.ArrAssignment? then AssignCell(s, n)
    else if n.ArrayRedec? then Lift(Redeclare(s, n), s)
    else if n.StructInst? then Lift(Instantiate(s, n), s)
    else if n.GlobalStructDec? then Run(Ok(()), s)
    else if n.InstAssignment? then AssignField(s, n)
    else if n.IfStmt? then IfSecond(s, n, fuel)
    else if n.FlankStmt? then FlankSecond(s, n, fuel)
    else if n.ForStmt? then ForSecond(s, n, fuel)
    else if n.BlockStmt? then VisitBody(Second, Log(s, Restore(s.i)), n.statements, n, fuel)
    else Generic(Second, s, n, fuel)
  }

  /** `generic_visit`: every node-valued attribute and list item, in order. */
  function Generic(p: Pass, s: St, n: Node, fuel: nat): Run
    decreases n, 3, 0
  {
    ChildrenBelow(n);
    VisitBody(p, s, GenericChildren(n), n, fuel)
  }

  /** `for stmt in xs: self.visit(stmt)`, stopping at the first exception. */
  function VisitBody(p: Pass, s: St, xs: seq<Node>, parent: Node, fuel: nat): Run
    requires Below(xs, parent)
    decreases parent, 1, |xs|
  {
    if xs == [] then Run(Ok(()), s)
    else
      var r := Visit(p, s, xs[0], fuel);
      if r.out.Err? then r else VisitBody(p, r.st, xs[1..], parent, fuel)
  }

  /** `enter_scope()`, the statements, `exit_scope()`. */
  function Scoped(p: Pass, s: St, xs: seq<Node>, parent: Node, fuel: nat): Run
    requires Below(xs, parent)
    decreases parent, 2, 0
  {
    var r := VisitBody(p, Log(s, Enter), xs, parent, fuel);
    if r.out.Err? then r else Run(Ok(()), Log(r.st, Exit))
  }

  /** `restore_scope(self.i)`, the statements, `exit_scope()`, `self.i += 1`. */
  function Restored(s: St, xs: seq<Node>, parent: Node, fuel: nat): Run
    requires Below(xs, parent)
    decreases parent, 2, 0
  {
    var r := VisitBody(Second, Log(s, Restore(s.i)), xs, parent, fuel);
    if r.out.Err? then r else Run(Ok(()), Log(r.st, Exit).(i := r.st.i + 1))
  }

  /** `ASTVisitor.visit_IfStmt`: each branch in its own scope; the elif and else
      parts only when their lists are non-empty. */
  function IfFirst(s: St, n: Node, fuel: nat): Run
    requires n.IfStmt?
    decreases n, 3, 0
  {
    var r := Scoped(First, s, n.thenBranch, n, fuel);
    if r.out.Err? then r
    else
      var r2 := if n.elifBranches.SomeNodes? && n.elifBranches.nodes != [] then ElifsFirst(r.st, n, 0, fuel) else r;
      if r2.out.Err? then r2
      else if n.elseBranch.SomeNodes? && n.elseBranch.nodes != [] then Scoped(First, r2.st, n.elseBranch.nodes, n, fuel)
      else r2
  }

  function ElifsFirst(s: St, n: Node, k: nat, fuel: nat): Run
    requires n.IfStmt? && n.elifBranches.SomeNodes? && k <= |n.elifBranches.nodes|
    decreases n, 2, |n.elifBranches.nodes| - k + 1
  {
    var bs := n.elifBranches.nodes;
    if k == |bs| then Run(Ok(()), s)
    else if !bs[k].ElifBranch? then Run(Fail(AttributeError, WrongNode + " 'body'"), Log(s, Enter))
    else
      assert bs[k] < n;
      var r := Scoped(First, s, bs[k].body, n, fuel);
      if r.out.Err? then r else ElifsFirst(r.st, n, k + 1, fuel)
  }

  /** `ASTVisitor.visit_FlankStmt`: each choice body, then the backup, scoped. */
  function FlankFirst(s: St, n: Node, fuel: nat): Run
    requires n.FlankStmt?
    decreases n, 3, 0
  {
    ChoicesFirst(s, n, 0, fuel)
  }

  function ChoicesFirst(s: St, n: Node, k: nat, fuel: nat): Run
    requires n.FlankStmt? && k <= |n.choices|
    decreases n, 2, |n.choices| - k + 1
  {
    if k == |n.choices| then Scoped(First, s, n.backupBody, n, fuel)
    else if !n.choices[k].Choice? then Run(Fail(AttributeError, WrongNode + " 'body'"), Log(s, Enter))
    else
      assert n.choices[k] < n;
      var r := Scoped(First, s, n.choices[k].body, n, fuel);
      if r.out.Err? then r else ChoicesFirst(r.st, n, k + 1, fuel)
  }

  /** `visit_BatchVarDec` from declaration `k` on, `types` being the types so far. */
  function BatchFrom(s: St, n: Node, k: nat, types: set<Option<string>>, fuel: nat): Run
    requires n.BatchVarDec? && k <= |n.declarations|
    decreases n, 2, |n.declarations| - k
  {
    if k == |n.declarations| then
      if |types| > 1 then Run(Fail(SemanticError, MixedBatch), s) else Run(Ok(()), s)
    else
      var d := n.declarations[k];
      var r := Visit(Second, s, d, fuel);
      if r.out.Err? then r
      else
        var t := DeclaredType(r.st.entries, d);
        if t.Err? then Run(Err(t.exc), r.st)
        else BatchFrom(r.st, n, k + 1, types + {t.value}, fuel)
  }

  /** `SemanticAnalyzer.visit_IfStmt`. */
  function IfSecond(s: St, n: Node, fuel: nat): Run
    requires n.IfStmt?
    decreases n, 3, 0
  {
    var cs := Conditions(s.entries, n);
    if cs.Err? then Run(Err(cs.exc), s)
    else
      ConditionsBranches(s.entries, n);
      FirstTrue(s, n, cs.value, 0, fuel)
  }

  /** The branch loop from branch `k` on: the first true branch runs and ends the
      statement; every branch passed over advances `i`; then the else branch. */
  function FirstTrue(s: St, n: Node, cs: seq<bool>, k: nat, fuel: nat): Run
    requires Branches(n, cs) && k <= |cs|
    decreases n, 2, |cs| - k + 1
  {
    if k == |cs| then
      if n.elseBranch.NoNodes? then Run(Ok(()), s) else Restored(s, n.elseBranch.nodes, n, fuel)
    else if cs[k] then Restored(s, BranchBody(n, cs, k), n, fuel)
    else FirstTrue(s.(i := s.i + 1), n, cs, k + 1, fuel)
  }

  /** `SemanticAnalyzer.visit_FlankStmt`. */
  function FlankSecond(s: St, n: Node, fuel: nat): Run
    requires n.FlankStmt?
    decreases n, 3, 0
  {
    var e := Eval(s.entries, n.expression);
    if e.Err? then Run(Err(e.exc), s) else ChoicesFrom(s, n, e.value, 0, fuel)
  }

  /** The choice loop from choice `k` on: a choice with a value equal to the
      expression runs; unless its body holds a `resume`, that ends the statement.
      A choice that does not match advances `i`. Then the backup body runs. */
  function ChoicesFrom(s: St, n: Node, e: Bound, k: nat, fuel: nat): Run
    requires n.FlankStmt? && k <= |n.choices|
    decreases n, 2, |n.choices| - k + 1
  {
    if k == |n.choices| then Restored(s, n.backupBody, n, fuel)
    else if !n.choices[k].Choice? then Run(Fail(AttributeError, WrongNode + " 'values'"), s)
    else
      var ch := n.choices[k];
      assert ch < n;
      var m := Matches(s.entries, ch.values, e, 0);
      if m.Err? then Run(Err(m.exc), s)
      else if !m.value then ChoicesFrom(s.(i := s.i + 1), n, e, k + 1, fuel)
      else
        var r := Restored(s, ch.body, n, fuel);
        if r.out.Err? || !HasResume(ch.body) then r
        else ChoicesFrom(r.st, n, e, k + 1, fuel)
  }

  /** `SemanticAnalyzer.visit_ForStmt`: the loop variable is set, the loop runs in
      a restored scope while the condition holds, and the variable gets back the
      value its record held before the statement. */
  function ForSecond(s: St, n: Node, fuel: nat): Run
    requires n.ForStmt?
    decreases n, 3, 0
  {
    if !n.initialization.Initialization? then Run(Fail(AttributeError, WrongNode + " 'left'"), s)
    else
      var h := ForHead(s, n);
      if h.Err? then Run(Err(h.exc), s)
      else
        ForRest(DefineVar(s, h.value.name, h.value.start, h.value.vtype, h.value.immo), n, h.value, fuel)
  }

  /** The rest of `visit_ForStmt` once the loop variable holds its start value:
      the condition must be a flag; the loop runs if it holds; then the loop
      variable gets back the value its record held before the statement. */
  function ForRest(s: St, n: Node, f: ForStart, fuel: nat): Run
    requires n.ForStmt?
    decreases n, 2, fuel + 2
  {
    var c := Eval(s.entries, n.condition);
    if c.Err? then Run(Err(c.exc), s)
    else if !IsBool(c.value) then Run(Fail(SemanticError, ForCondition), s)
    else
      var r := if c.value.v.flag then Looped(s, n, fuel) else Run(Ok(()), s);
      if r.out.Err? then r
      else
        var prev := ValueKey(f.rec);
        if prev.Err? then Run(Err(prev.exc), r.st)
        else Run(Ok(()), DefineVar(r.st, f.name, prev.value, f.vtype, f.immo))
  }

  /** `restore_scope(self.i)`, the `while` loop, `exit_scope()`, `self.i += 1`. */
  function Looped(s: St, n: Node, fuel: nat): Run
    requires n.ForStmt?
    decreases n, 2, fuel + 1
  {
    var r := ForLoop(Log(s, Restore(s.i)), n, fuel);
    if r.out.Err? then r else Run(Ok(()), Log(r.st, Exit).(i := r.st.i + 1))
  }

  /** `while evaluate(node.condition)`: the body, then the update. The model runs
      at most `fuel` rounds and reports `Unfinished` when the loop would go on. */
  function ForLoop(s: St, n: Node, fuel: nat): Run
    requires n.ForStmt?
    decreases n, 2, fuel
  {
    if fuel == 0 then Run(Fail(Unfinished, LoopBound), s)
    else
      var c := Eval(s.entries, n.condition);
      if c.Err? then Run(Err(c.exc), s)
      else if !Truthy(c.value) then Run(Ok(()), s)
      else
        var r := VisitBody(Second, s, n.body, n, fuel);
        if r.out.Err? then r
        else
          var u := Update(r.st, n.update);
          if u.Err? then Run(Err(u.exc), r.st)
          else ForLoop(u.value, n, fuel - 1)
  }

  /** The `try` block of `check` in ludus/new_ast.py: a new `ASTVisitor` visits the
      tree, then a `SemanticAnalyzer` (whose `i` starts at 1) visits it again over
      the same table; the table is the result, and an exception its message. */
  function Passes(n: Node, fuel: nat): Result<map<string, Entry>> {
    var r1 := Visit(First, St(map[], [], 1), n, fuel);
    if r1.out.Err? then Err(r1.out.exc)
    else
      var r2 := Visit(Second, r1.st.(i := 1), n, fuel);
      if r2.out.Err? then Err(r2.out.exc) else Ok(r2.st.entries)
  }

  // ---- structural facts used for termination -------------------------------------------

  lemma ChildrenBelow(n: Node)
    ensures Below(GenericChildren(n), n)
  {
    AttrsBelow(n);
    if n.ArrayDec? {
      if n.elements.SomeCells? { LeavesBelow(n.elements.cells, n); }
    } else if n.ArrayRedec? {
      if n.elements.SomeCells? { LeavesBelow(n.elements.cells, n); }
    } else {
      ItemsBelow(NodeAttrs(n), n);
    }
  }

  lemma AttrsBelow(n: Node)
    ensures Below(NodeAttrs(n), n)
  {
  }

  lemma ItemsBelow(xs: seq<Node>, n: Node)
    requires Below(xs, n)
    ensures Below(StmtItems(xs), n)
  {
  }

  lemma {:induction false} LeavesBelow(cells: seq<Cell>, n: Node)
    requires forall k :: 0 <= k < |cells| ==> cells[k] < n
    ensures Below(LeafItems(cells), n)
  {
    if cells != [] {
      LeavesBelow(cells[1..], n);
    }
  }

  /** Successful conditions line up with the branches. */
  lemma ConditionsBranches(entries: map<string, Entry>, n: Node)
    requires n.IfStmt? && Conditions(entries, n).Ok?
    ensures Branches(n, Conditions(entries, n).value)
  {
    if n.elifBranches.SomeNodes? {
      ElifConditionsShape(entries, n.elifBranches.nodes, 0, [Eval(entries, n.condition).value.v.flag]);
    }
  }

  lemma {:induction false} ElifConditionsShape(entries: map<string, Entry>, bs: seq<Node>, k: nat, acc: seq<bool>)
    requires k <= |bs| && ElifConditionsFrom(entries, bs, k, acc).Ok?
    ensures |ElifConditionsFrom(entries, bs, k, acc).value| == |acc| + |bs| - k
    ensures forall j :: k <= j < |bs| ==> bs[j].ElifBranch?
    decreases |bs| - k
  {
    if k < |bs| {
      var c := Eval(entries, bs[k].condition).value;
      ElifConditionsShape(entries, bs, k + 1, acc + [c.v.flag]);
    }
  }
}
