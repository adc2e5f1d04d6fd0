/** Properties of the two analyser passes of ludus/runtime/traverser.py, stated
    about the functions of module Traverser. */
module TraverserLaws {
  import opened Results
  import opened Values
  import opened Nodes
  import NST = NewSymbolTable
  import opened Traverser

  // ---- array declarations --------------------------------------------------------

  /** Every element type is the same one. */
  predicate SameTypes(ts: seq<string>) {
    forall j, k :: 0 <= j < |ts| && 0 <= k < |ts| ==> ts[j] == ts[k]
  }

  /** `len(declared_types) > 1` exactly when two elements have different types. */
  lemma TypeSetMixed(ts: seq<string>)
    ensures |TypeSet(ts)| > 1 <==> !SameTypes(ts)
  {
    if SameTypes(ts) {
      if ts == [] {
        assert TypeSet(ts) == {};
      } else {
        assert TypeSet(ts) == {ts[0]};
      }
    } else {
      var j, k :| 0 <= j < |ts| && 0 <= k < |ts| && ts[j] != ts[k];
      var two := {ts[j], ts[k]};
      assert TypeSet(ts) == two + (TypeSet(ts) - two);
      assert |two| == 2;
    }
  }

  /** One element type per evaluated element, in order. */
  lemma {:induction false} FlatTypes(entries: map<string, Entry>, cells: seq<Cell>, k: nat, acc: Evaluated)
    requires k <= |cells| && |acc.items| == |acc.types|
    requires FlatFrom(entries, cells, k, acc).Ok?
    ensures var ev := FlatFrom(entries, cells, k, acc).value;
      |ev.items| == |ev.types| == |acc.items| + |cells| - k
      && ev.items[..|acc.items|] == acc.items && ev.types[..|acc.types|] == acc.types
      && forall j :: |acc.items| <= j < |ev.items| ==> ev.items[j].Cell? && ev.types[j] == TypeOfBound(ev.items[j].b)
    decreases |cells| - k
  {
    if k < |cells| {
      var b := EvalCell(entries, cells[k]).value;
      var acc' := Evaluated(acc.items + [Cell(b)], acc.types + [TypeOfBound(b)]);
      FlatTypes(entries, cells, k + 1, acc');
      var ev := FlatFrom(entries, cells, k, acc).value;
      assert ev.items[..|acc'.items|] == acc'.items;
      assert ev.items[..|acc.items|] == acc'.items[..|acc.items|];
      assert ev.types[..|acc.types|] == acc'.types[..|acc.types|];
    }
  }

  /** `visit_ArrayDec` with an initialiser: it succeeds exactly when all element
      types agree (and the name is an identifier), and a mix of types is the
      "same type" error. The stored type is the declared one for an empty
      initialiser and otherwise the type of every element; no other name changes. */
  lemma ArrayDeclaration(s: St, n: Node)
    requires n.ArrayDec? && n.elements.SomeCells? && n.name.Identifier?
    requires EvalInit(s.entries, n.dimensions, n.elements.cells).Ok?
    ensures var ev := EvalInit(s.entries, n.dimensions, n.elements.cells).value;
      (DeclareArray(s, n).Ok? <==> SameTypes(ev.types))
      && (!SameTypes(ev.types) ==> DeclareArray(s, n) == Fail(SemanticError, MixedArray))
    ensures DeclareArray(s, n).Ok? ==>
      var t := DeclareArray(s, n).value;
      var ev := EvalInit(s.entries, n.dimensions, n.elements.cells).value;
      var e := t.entries[n.name.symbol];
      e.ArrRec? && e.dims == n.dimensions && e.elements == Some(ev.items) && e.immo == n.immo
      && (EmptyInit(n.dimensions, n.elements.cells) ==> e.atype == n.dtype)
      && (!EmptyInit(n.dimensions, n.elements.cells) ==> forall j :: 0 <= j < |ev.types| ==> e.atype == Some(ev.types[j]))
      && (forall x :: x in s.entries && x != n.name.symbol ==> x in t.entries && t.entries[x] == s.entries[x])
      && t.scopes == s.scopes && t.i == s.i
  {
    var ev := EvalInit(s.entries, n.dimensions, n.elements.cells).value;
    TypeSetMixed(ev.types);
  }

  /** An empty initialiser (`[]`, or `[[], []]` for two dimensions) declares an
      array of the declared type. */
  lemma EmptyArrayDeclaration(s: St, n: Node)
    requires n.ArrayDec? && n.name.Identifier? && n.elements.SomeCells?
    requires EmptyInit(n.dimensions, n.elements.cells)
    ensures DeclareArray(s, n).Ok?
    ensures DeclareArray(s, n).value.entries[n.name.symbol].atype == n.dtype
  {
    var e0 := Evaluated([], []);
    if |n.dimensions| == 1 {
      assert EvalInit(s.entries, n.dimensions, n.elements.cells) == Ok(e0);
    } else {
      var rows := n.elements.cells;
      var e2 := Evaluated([List([]), List([])], []);
      assert FlatFrom(s.entries, rows[0].cells, 0, e0) == Ok(e0);
      assert FlatFrom(s.entries, rows[1].cells, 0, e0) == Ok(e0);
      assert RowsFrom(s.entries, rows, 2, e2) == Ok(e2);
      assert [List([])] + [List([])] == e2.items;
      assert [] + [List([])] == [List([])];
      assert e0.types + e0.types == [];
      assert RowsFrom(s.entries, rows, 1, Evaluated([List([])], [])) == Ok(e2);
      assert EvalInit(s.entries, n.dimensions, rows) == Ok(e2);
    }
    assert TypeSet([]) == {};
  }

  // ---- compound assignment ----------------------------------------------------------

  /** Between two comms only `+=` is allowed, and it concatenates. */
  lemma CommsCompound(prev: Bound, rhs: Bound, op: string)
    requires IsCompound(op) && IsStr(prev) && IsStr(rhs)
    ensures Compound(prev, rhs, op).Ok? <==> op == "+="
    ensures op != "+=" ==> Compound(prev, rhs, op) == Fail(SemanticError, CommsAssignOperator)
    ensures op == "+=" ==> Compound(prev, rhs, op) == Ok(NST.Val(Comms(prev.v.comms + rhs.v.comms)))
  {
  }

  /** A comms value never combines with a number or a flag. */
  lemma MixedCompound(prev: Bound, rhs: Bound, op: string)
    requires IsCompound(op) && IsStr(prev) != IsStr(rhs)
    ensures Compound(prev, rhs, op).Err? && Compound(prev, rhs, op).exc.kind == SemanticError
    ensures IsBool(prev) || IsBool(rhs) ==> Compound(prev, rhs, op) == Fail(SemanticError, MixCommsFlags)
  {
  }

  /** `/=` and `%=` by an integer zero are refused. */
  lemma ZeroDivisor(prev: Bound, rhs: Bound, op: string)
    requires (op == "/=" || op == "%=") && IsInt(prev) && IsInt(rhs) && IntOf(rhs.v) == 0
    ensures Compound(prev, rhs, op) == Fail(SemanticError, if op == "/=" then DivByZero else ModByZero)
  {
  }

  /** `%=` works on hp (and flag) operands only and gives Python's remainder,
      which takes the sign of the divisor. */
  lemma ModuloCompound(prev: Bound, rhs: Bound)
    ensures Compound(prev, rhs, "%=").Ok? <==> IsInt(prev) && IsInt(rhs) && IntOf(rhs.v) != 0
    ensures Compound(prev, rhs, "%=").Ok? ==>
      var m := Compound(prev, rhs, "%=").value;
      m.Val? && m.v.Hp?
      && IntOf(prev.v) == IntOf(rhs.v) * FloorDiv(IntOf(prev.v), IntOf(rhs.v)) + m.v.hp
      && (IntOf(rhs.v) > 0 ==> 0 <= m.v.hp < IntOf(rhs.v))
      && (IntOf(rhs.v) < 0 ==> IntOf(rhs.v) < m.v.hp <= 0)
  {
  }

  /** `/=` between integers stays an hp, truncated toward zero. */
  lemma IntDivCompound(prev: Bound, rhs: Bound)
    requires IsInt(prev) && IsInt(rhs) && IntOf(rhs.v) != 0
    ensures Compound(prev, rhs, "/=").Ok?
    ensures var q := Compound(prev, rhs, "/=").value;
      q.Val? && q.v.Hp?
      && Abs(IntOf(rhs.v) * q.v.hp) <= Abs(IntOf(prev.v)) < Abs(IntOf(rhs.v) * q.v.hp) + Abs(IntOf(rhs.v))
      && ((IntOf(prev.v) >= 0) == (IntOf(rhs.v) > 0) ==> q.v.hp >= 0)
  {
  }

  // ---- variable assignment ------------------------------------------------------------

  /** A successful `visit_VarAssignmentStmt` stores a value of the recorded type
      under the same record type and `immo`, and changes nothing else. */
  lemma AssignVarKeepsType(s: St, n: Node)
    requires HasAssignParts(n) && AssignVar(s, n).Ok?
    ensures n.left.Identifier? && n.left.symbol in s.entries
    ensures var name := n.left.symbol;
      var rec := s.entries[name];
      var t := AssignVar(s, n).value;
      (rec.VarRec? || rec.ArrRec?) && rec.immo != Some(true)
      && name in t.entries && t.entries[name].VarRec?
      && t.entries[name].vtype == TypeKey(rec).value
      && t.entries[name].vtype == Some(TypeOfBound(t.entries[name].value))
      && t.entries[name].immo == rec.immo
      && (forall x :: x in s.entries && x != name ==> x in t.entries && t.entries[x] == s.entries[x])
      && t.entries.Keys == s.entries.Keys && t.scopes == s.scopes && t.i == s.i
  {
  }

  /** An immutable variable cannot be assigned to. */
  lemma AssignImmutable(s: St, n: Node)
    requires HasAssignParts(n) && n.left.Identifier? && n.left.symbol in s.entries
    requires s.entries[n.left.symbol].VarRec? && s.entries[n.left.symbol].immo == Some(true)
    ensures AssignVar(s, n) == Fail(SemanticError, Immutable("AssignmentError: ", n.left.symbol) + "variable.")
  {
  }

  /** A name that is not in the table is refused by `lookup`. */
  lemma AssignUndeclared(s: St, n: Node)
    requires HasAssignParts(n) && n.left.Identifier? && n.left.symbol !in s.entries
    ensures AssignVar(s, n).Err? && AssignVar(s, n).exc.kind == PlainException
  {
  }

  // ---- the VarDec redeclaration --------------------------------------------------------

  /** As written, the second pass's `visit_VarDec` can never succeed: once the
      value evaluates and the name is an identifier it reads the missing `immo`. */
  lemma VarDecAsWrittenFails(s: St, n: Node)
    requires n.VarDec?
    ensures RedeclareVarAsWritten(s, n).Err?
    ensures Eval(s.entries, n.value).Ok? && n.name.Identifier? ==> RedeclareVarAsWritten(s, n) == Fail(AttributeError, NoImmo)
  {
  }

  /** As intended, the same input binds the name to a usable, mutable variable
      holding the value, typed by the value (or by a `dead` literal's type). */
  lemma VarDecCorrected(s: St, n: Node)
    requires n.VarDec? && Eval(s.entries, n.value).Ok? && n.name.Identifier?
    ensures RedeclareVar(s, n).Ok? && RedeclareVarAsWritten(s, n).Err?
    ensures var t := RedeclareVar(s, n).value;
      var name := n.name.symbol;
      var v := Eval(s.entries, n.value).value;
      Lookup(t.entries, name) == Ok(t.entries[name])
      && t.entries[name].VarRec? && t.entries[name].value == v && t.entries[name].immo == None
      && (!n.value.DeadLiteral? ==> t.entries[name].vtype == Some(TypeOfBound(v)))
      && (forall x :: x in s.entries && x != name ==> x in t.entries && t.entries[x] == s.entries[x])
  {
  }

  // ---- array cells -----------------------------------------------------------------------

  /** Two index paths that part ways at some position. */
  predicate Diverge(p: seq<int>, q: seq<int>) {
    exists j :: 0 <= j < |p| && j < |q| && p[j] != q[j]
  }

  /** Writing at a path that exists puts the value there. */
  lemma {:induction false} GetPutAt(t: Item, p: seq<int>, v: Item)
    requires Get(t, p).Some?
    ensures Get(PutAt(t, p, v), p) == Some(v)
    decreases |p|
  {
    if p != [] {
      GetPutAt(t.items[p[0]], p[1..], v);
    }
  }

  /** Writing at one path leaves every path that parts ways with it unchanged. */
  lemma {:induction false} GetPutAtOther(t: Item, p: seq<int>, q: seq<int>, v: Item)
    requires Get(t, p).Some? && Diverge(p, q)
    ensures Get(PutAt(t, p, v), q) == Get(t, q)
    decreases |p|
  {
    var j :| 0 <= j < |p| && j < |q| && p[j] != q[j];
    if j > 0 {
      assert p[1..][j - 1] != q[1..][j - 1];
      GetPutAtOther(t.items[p[0]], p[1..], q[1..], v);
    }
  }

  lemma {:induction false} GetSnoc(t: Item, p: seq<int>, k: int)
    requires Get(t, p).Some? && Get(t, p).value.List? && 0 <= k < |Get(t, p).value.items|
    ensures Get(t, p + [k]) == Some(Get(t, p).value.items[k])
    decreases |p|
  {
    if p != [] {
      assert (p + [k])[1..] == p[1..] + [k];
      GetSnoc(t.items[p[0]], p[1..], k);
    }
  }

  lemma {:induction false} FollowSnoc(t: Item, p: seq<int>, k: int)
    ensures Follow(t, p + [k]) == Step(Follow(t, p), k)
    decreases |p|
  {
    if p != [] {
      assert (p + [k])[1..] == p[1..] + [k];
      FollowSnoc(Step(t, p[0]), p[1..], k);
    }
  }

  /** The element reached so far went through lists only, or it is a string. */
  predicate Reaches(root: Item, path: seq<int>) {
    Get(root, path) == Some(Follow(root, path)) || Follow(root, path).Cell?
  }

  /** Every index the walk takes was checked against the element it indexes. */
  lemma {:induction false} WalkReaches(entries: map<string, Entry>, name: string, idx: seq<Node>, k: nat, root: Item, path: seq<int>)
    requires k <= |idx| && Reaches(root, path) && WalkFrom(entries, name, idx, k, root, path).Ok?
    ensures Reaches(root, WalkFrom(entries, name, idx, k, root, path).value)
    decreases |idx| - k
  {
    if k + 1 < |idx| {
      var b := Eval(entries, idx[k]).value;
      var i := IntOf(b.v);
      FollowSnoc(root, path, i);
      var target := Follow(root, path);
      if target.List? {
        GetSnoc(root, path, i);
      }
      WalkReaches(entries, name, idx, k + 1, root, path + [i]);
    }
  }

  lemma LocateReaches(s: St, n: Node)
    requires n.ArrAssignment? && Locate(s, n).Ok?
    ensures Reaches(List(Locate(s, n).value.data), Locate(s, n).value.path)
  {
    var name := n.left.left.symbol;
    var data := s.entries[name].elements.value;
    WalkReaches(s.entries, name, n.left.index, 0, List(data), []);
  }

  /** The cell `visit_ArrayAssignmentStmt` writes to, when it gets that far. */
  function Written(s: St, n: Node): seq<int>
    requires n.ArrAssignment? && Locate(s, n).Ok?
  {
    var t := Locate(s, n).value;
    if t.last.v.Xp? then t.path else t.path + [IntOf(t.last.v)]
  }

  /** After the write, the stored array holds the new value at the indexed cell
      and the old contents everywhere else. Success means the value has the
      array's type; a type mismatch is raised after the write, so the array
      stays changed. Nothing else changes. */
  lemma AssignCellWrites(s: St, n: Node)
    requires n.ArrAssignment? && Locate(s, n).Ok?
    ensures var t := Locate(s, n).value;
      var r := AssignCell(s, n);
      (forall x :: x in s.entries && x != t.name ==> x in r.st.entries && r.st.entries[x] == s.entries[x])
      && r.st.scopes == s.scopes && r.st.i == s.i
      && (r.st != s ==>
            t.name in r.st.entries
            && r.st.entries[t.name] == t.rec.(elements := r.st.entries[t.name].elements)
            && r.st.entries[t.name].elements.Some?
            && var d := List(r.st.entries[t.name].elements.value);
            Get(d, Written(s, n)).Some? && Get(d, Written(s, n)).value.Cell?
            && (r.out.Ok? <==> Some(TypeOfBound(Get(d, Written(s, n)).value.b)) == t.rec.atype)
            && (forall q :: Diverge(Written(s, n), q) ==> Get(d, q) == Get(List(t.data), q)))
  {
    var t := Locate(s, n).value;
    var r := AssignCell(s, n);
    if r.st != s {
      LocateReaches(s, n);
      var nv := Eval(s.entries, n.right);
      var v := Assigned(Ok(Current(t)), nv.value, n.operator).value;
      var k := IntOf(t.last.v);
      var root := List(t.data);
      GetSnoc(root, t.path, k);
      GetPutAt(root, t.path + [k], Cell(v));
      forall q | Diverge(t.path + [k], q)
        ensures Get(PutAt(root, t.path + [k], Cell(v)), q) == Get(root, q)
      {
        GetPutAtOther(root, t.path + [k], q, Cell(v));
      }
    }
  }

  /** An immutable array, a dead array or the wrong number of indices is refused
      before anything is written. */
  lemma AssignCellGuards(s: St, n: Node)
    requires n.ArrAssignment? && n.left.ArrElement? && n.left.left.Identifier?
    requires var name := n.left.left.symbol;
      name in s.entries && s.entries[name].ArrRec?
      && (s.entries[name].immo == Some(true) || s.entries[name].elements.None? || |s.entries[name].dims| != |n.left.index|)
    ensures AssignCell(s, n).out.Err? && AssignCell(s, n).out.exc.kind == SemanticError && AssignCell(s, n).st == s
  {
  }

  // ---- struct declarations and instances --------------------------------------------------

  /** No two fields share a name. */
  predicate Unique(fs: seq<NST.FieldInfo>) {
    forall j, k :: 0 <= j < k < |fs| ==> fs[j].name != fs[k].name
  }

  /** Each field holds a value of its declared type. */
  predicate WellTyped(fs: seq<NST.FieldInfo>) {
    forall j :: 0 <= j < |fs| ==> fs[j].dtype == Some(TypeOfBound(fs[j].value))
  }

  /** Putting a field in a dictionary keeps its keys unique. */
  lemma {:induction false} PutUnique(fs: seq<NST.FieldInfo>, f: NST.FieldInfo)
    requires Unique(fs)
    ensures Unique(Put(fs, f))
    ensures |Put(fs, f)| <= |fs| + 1
    ensures forall j :: 0 <= j < |Put(fs, f)| ==> Put(fs, f)[j] == f || Put(fs, f)[j] in fs
  {
    if fs != [] && fs[0].name != f.name {
      PutUnique(fs[1..], f);
      var r := Put(fs, f);
      assert r == [fs[0]] + Put(fs[1..], f);
      forall j, k | 0 <= j < k < |r|
        ensures r[j].name != r[k].name
      {
        if j == 0 {
          assert r[k] in Put(fs[1..], f);
          if r[k] != f {
            assert r[k] in fs[1..];
          }
        }
      }
    }
  }

  /** The loop of `visit_StructDec` builds a dictionary of well-typed fields. */
  lemma {:induction false} FieldsFromShape(entries: map<string, Entry>, body: seq<Node>, k: nat, fields: seq<NST.FieldInfo>)
    requires k <= |body| && Unique(fields) && WellTyped(fields)
    requires FieldsFrom(entries, body, k, fields).Ok?
    ensures Unique(FieldsFrom(entries, body, k, fields).value)
    ensures WellTyped(FieldsFrom(entries, body, k, fields).value)
    decreases |body| - k
  {
    if k < |body| {
      var f := FieldOf(entries, body[k]).value;
      PutUnique(fields, f);
      var p := Put(fields, f);
      forall j | 0 <= j < |p|
        ensures p[j].dtype == Some(TypeOfBound(p[j].value))
      {
        if p[j] != f {
          var m :| 0 <= m < |fields| && fields[m] == p[j];
        }
      }
      FieldsFromShape(entries, body, k + 1, p);
    }
  }

  /** `visit_StructDec` binds the struct's name to a dictionary whose field names
      are distinct and whose every field holds a value of its declared type. */
  lemma StructDeclared(s: St, n: Node)
    requires n.StructDec? && DeclareStruct(s, n).Ok?
    ensures n.name.Identifier?
    ensures var e := DeclareStruct(s, n).value.entries[n.name.symbol];
      e.Plain? && e.b.FieldDict? && Unique(e.b.fields) && WellTyped(e.b.fields)
  {
    FieldsFromShape(s.entries, n.body, 0, []);
  }

  /** The fill loop: it succeeds exactly when every given value has its field's
      type; the fields come out in the parent's order, given values first by
      position, the parent's values after them. */
  lemma {:induction false} FillFromShape(given: seq<Slot>, decl: seq<NST.FieldInfo>, k: nat, acc: seq<Slot>)
    requires k <= |decl|
    ensures FillFrom(given, decl, k, acc).Ok? <==>
      forall j :: k <= j < |decl| && j < |given| ==> MappedType(SlotValue(given[j])) == decl[j].dtype
    ensures FillFrom(given, decl, k, acc).Ok? ==>
      var r := FillFrom(given, decl, k, acc).value;
      |r| == |acc| + |decl| - k && r[..|acc|] == acc
      && forall j :: k <= j < |decl| ==>
        r[|acc| + j - k] == Named(decl[j].name, if j < |given| then SlotValue(given[j]) else decl[j].value)
    decreases |decl| - k
  {
    if k < |decl| {
      var slot := Named(decl[k].name, if k < |given| then SlotValue(given[k]) else decl[k].value);
      FillFromShape(given, decl, k + 1, acc + [slot]);
      if FillFrom(given, decl, k, acc).Ok? {
        var r := FillFrom(given, decl, k, acc).value;
        assert r[..|acc| + 1] == acc + [slot];
        assert r[..|acc|] == (acc + [slot])[..|acc|];
      }
    }
  }

  /** `SemanticAnalyzer.visit_StructInst`: the instance gets one named field per
      field of its parent, in order; at most as many values as fields may be
      given, each of its field's type, and the rest take the parent's values. */
  lemma InstanceFilled(s: St, n: Node)
    requires n.StructInst? && Instantiate(s, n).Ok?
    ensures n.name.Identifier? && n.name.symbol in s.entries
    ensures var rec := s.entries[n.name.symbol];
      rec.InstRec? && rec.parent in s.entries
      && var p := s.entries[rec.parent];
      p.Plain? && p.b.FieldDict? && |rec.fields| <= |p.b.fields|
      && var e := Instantiate(s, n).value.entries[n.name.symbol];
      e.InstRec? && e.parent == n.parent && e.immo == n.immo && |e.fields| == |p.b.fields|
      && forall j :: 0 <= j < |p.b.fields| ==>
        e.fields[j].Named? && e.fields[j].name == p.b.fields[j].name
        && (j < |rec.fields| ==> e.fields[j].value == SlotValue(rec.fields[j]) && MappedType(e.fields[j].value) == p.b.fields[j].dtype)
        && (j >= |rec.fields| ==> e.fields[j].value == p.b.fields[j].value)
  {
    var rec := s.entries[n.name.symbol];
    assert rec.InstRec? && rec.parent in s.entries;
    var p := s.entries[rec.parent];
    assert p.Plain? && p.b.FieldDict? && |rec.fields| <= |p.b.fields|;
    FillFromShape(rec.fields, p.b.fields, 0, []);
    var filled := FillFrom(rec.fields, p.b.fields, 0, []).value;
    assert Instantiate(s, n).value.entries[n.name.symbol] == InstRec(n.parent, filled, n.immo);
    forall j | 0 <= j < |p.b.fields|
      ensures filled[j] == Named(p.b.fields[j].name, if j < |rec.fields| then SlotValue(rec.fields[j]) else p.b.fields[j].value)
      ensures j < |rec.fields| ==> MappedType(SlotValue(rec.fields[j])) == p.b.fields[j].dtype
    {
      var none: seq<Slot> := [];
      assert |none| + j - 0 == j;
    }
  }

  /** `[field["name"] for field in fields]` lists exactly the names of the fields. */
  lemma {:induction false} NamesFromShape(fields: seq<Slot>, k: nat, acc: seq<string>, x: string)
    requires k <= |fields| && NamesFrom(fields, k, acc).Ok?
    ensures x in NamesFrom(fields, k, acc).value <==> x in acc || exists j :: k <= j < |fields| && fields[j].name == x
    decreases |fields| - k
  {
    if k < |fields| {
      NamesFromShape(fields, k + 1, acc + [fields[k].name], x);
    }
  }

  /** The checks before the loop of `visit_InstAssignmentStmt`: an immutable
      instance, or a field the instance does not have, is refused. */
  lemma AimChecks(s: St, n: Node)
    requires n.InstAssignment? && Aim(s, n).Ok?
    ensures n.left.StructInstField? && n.left.instance.Identifier? && n.left.field.Identifier?
    ensures var g := Aim(s, n).value.0;
      g.inst == n.left.instance.symbol && g.field == n.left.field.symbol
      && g.inst in s.entries && g.rec == s.entries[g.inst] && g.rec.immo != Some(true)
      && exists j :: 0 <= j < |g.rec.fields| && g.rec.fields[j].name == g.field
  {
    var g := Aim(s, n).value.0;
    NamesFromShape(g.rec.fields, 0, [], g.field);
  }

  /** The field loop keeps every field's name and Ludus type and touches only the
      fields with the target name; the record keeps its parent and `immo`. */
  lemma {:induction false} FieldLoopKeepsTypes(s: St, g: Goal, fs: seq<Slot>, nv: Bound, k: nat)
    requires GoalOk(g) && k <= |fs| && forall j :: 0 <= j < |fs| ==> fs[j].Named?
    ensures var r := FieldLoop(s, g, fs, nv, k);
      (forall x :: x in s.entries && x != g.inst ==> x in r.st.entries && r.st.entries[x] == s.entries[x])
      && r.st.scopes == s.scopes && r.st.i == s.i
      && (r.out.Ok? ==>
            g.inst in r.st.entries
            && var e := r.st.entries[g.inst];
            e.InstRec? && e.parent == g.rec.parent && e.immo == g.rec.immo && |e.fields| == |fs|
            && forall j :: 0 <= j < |fs| ==>
              e.fields[j].Named? && e.fields[j].name == fs[j].name
              && MappedType(e.fields[j].value) == MappedType(fs[j].value)
              && (j < k || fs[j].name != g.field ==> e.fields[j] == fs[j]))
    decreases |fs| - k
  {
    if k < |fs| {
      if fs[k].name != g.field {
        FieldLoopKeepsTypes(s, g, fs, nv, k + 1);
      } else {
        var v := Assigned(Ok(fs[k].value), nv, g.op);
        if v.Ok? && MappedType(v.value) == MappedType(fs[k].value) {
          var fs' := fs[k := Named(fs[k].name, v.value)];
          var s' := s.(entries := s.entries[g.inst := InstRec(g.rec.parent, fs', g.rec.immo)]);
          FieldLoopKeepsTypes(s', g, fs', v.value, k + 1);
        }
      }
    }
  }

  // ---- branches and loops of the second pass ------------------------------------------------

  /** The first true condition picks the branch that runs, in a scope restored
      with `i` advanced once for every branch passed over before it. */
  lemma {:induction false} FirstTrueRuns(s: St, n: Node, cs: seq<bool>, k: nat, m: nat, fuel: nat)
    requires Branches(n, cs) && k <= m < |cs| && cs[m]
    requires forall j :: k <= j < m ==> !cs[j]
    ensures FirstTrue(s, n, cs, k, fuel) == Restored(s.(i := s.i + (m - k)), BranchBody(n, cs, m), n, fuel)
    decreases m - k
  {
    if k < m {
      FirstTrueRuns(s.(i := s.i + 1), n, cs, k + 1, m, fuel);
      assert s.(i := s.i + 1).(i := s.i + 1 + (m - (k + 1))) == s.(i := s.i + (m - k));
    }
  }

  /** With no true condition, `i` advances once per branch and the else branch
      (if any) runs. */
  lemma {:induction false} FirstTrueElse(s: St, n: Node, cs: seq<bool>, k: nat, fuel: nat)
    requires Branches(n, cs) && k <= |cs|
    requires forall j :: k <= j < |cs| ==> !cs[j]
    ensures var s' := s.(i := s.i + (|cs| - k));
      FirstTrue(s, n, cs, k, fuel) ==
        if n.elseBranch.NoNodes? then Run(Ok(()), s') else Restored(s', n.elseBranch.nodes, n, fuel)
    decreases |cs| - k
  {
    if k < |cs| {
      FirstTrueElse(s.(i := s.i + 1), n, cs, k + 1, fuel);
      assert s.(i := s.i + 1).(i := s.i + 1 + (|cs| - (k + 1))) == s.(i := s.i + (|cs| - k));
    }
  }

  /** A `for` statement that completes has an hp loop variable that is not
      immutable, and leaves it with exactly the record it had before. */
  lemma ForRestoresVariable(s: St, n: Node, fuel: nat)
    requires n.ForStmt? && ForSecond(s, n, fuel).out.Ok?
    ensures n.initialization.Initialization?
    ensures var name := n.initialization.loopVar;
      name in s.entries && s.entries[name].VarRec?
      && s.entries[name].vtype == Some("hp") && s.entries[name].immo != Some(true)
      && name in ForSecond(s, n, fuel).st.entries
      && ForSecond(s, n, fuel).st.entries[name] == s.entries[name]
  {
    var h := ForHead(s, n).value;
    var rec := s.entries[h.name];
    assert h.rec == rec;
    var s1 := DefineVar(s, h.name, h.start, h.vtype, h.immo);
    assert ForSecond(s, n, fuel) == ForRest(s1, n, h, fuel);
  }

  // ---- the first pass ---------------------------------------------------------------------

  function Delta(e: Scope): int {
    if e.Enter? then 1 else if e.Exit? then -1 else 0
  }

  /** Scopes entered minus scopes exited. */
  function Depth(log: seq<Scope>): int {
    if log == [] then 0 else Delta(log[0]) + Depth(log[1..])
  }

  lemma {:induction false} DepthAppend(a: seq<Scope>, b: seq<Scope>)
    ensures Depth(a + b) == Depth(a) + Depth(b)
  {
    if a != [] {
      assert (a + b)[1..] == a[1..] + b;
      DepthAppend(a[1..], b);
    } else {
      assert a + b == b;
    }
  }

  predicate NoRestore(log: seq<Scope>) {
    forall j :: 0 <= j < |log| ==> !log[j].Restore?
  }

  /** From `s` to `t` the first pass only binds names and logs scopes: `i` stays,
      no name disappears, and the log grows without `restore_scope` calls. */
  predicate Grows(s: St, t: St) {
    t.i == s.i && s.entries.Keys <= t.entries.Keys && s.scopes <= t.scopes
    && NoRestore(t.scopes[|s.scopes|..])
  }

  /** No prefix of the log exits more scopes than it has entered: every
      `exit_scope` closes a scope opened before it. */
  predicate NeverBelow(log: seq<Scope>) {
    forall j :: 0 <= j <= |log| ==> Depth(log[..j]) >= 0
  }

  /** ... every exit closes a scope entered before it, and on success every scope
      entered has been exited: the enter and exit calls pair up like brackets. */
  predicate Closed(s: St, r: Run) {
    Grows(s, r.st) && NeverBelow(r.st.scopes[|s.scopes|..])
    && (r.out.Ok? ==> Depth(r.st.scopes[|s.scopes|..]) == 0)
  }

  lemma {:induction false} NeverBelowAppend(a: seq<Scope>, b: seq<Scope>)
    requires NeverBelow(a) && NeverBelow(b)
    ensures NeverBelow(a + b)
  {
    assert a[..|a|] == a;
    forall j | 0 <= j <= |a + b|
      ensures Depth((a + b)[..j]) >= 0
    {
      if j <= |a| {
        assert (a + b)[..j] == a[..j];
      } else {
        assert (a + b)[..j] == a + b[..j - |a|];
        DepthAppend(a, b[..j - |a|]);
      }
    }
  }

  /** Closing a log that has a scope open keeps it from going below zero. */
  lemma {:induction false} NeverBelowExit(a: seq<Scope>)
    requires NeverBelow(a) && Depth(a) >= 1
    ensures NeverBelow(a + [Exit])
  {
    forall j | 0 <= j <= |a + [Exit]|
      ensures Depth((a + [Exit])[..j]) >= 0
    {
      if j <= |a| {
        assert (a + [Exit])[..j] == a[..j];
      } else {
        assert (a + [Exit])[..j] == a + [Exit];
        DepthAppend(a, [Exit]);
        assert Depth([Exit]) == -1 by { assert [Exit][1..] == []; }
      }
    }
  }

  lemma Chain(a: St, b: St, c: St)
    requires Grows(a, b) && Grows(b, c)
    ensures Grows(a, c)
    ensures Depth(c.scopes[|a.scopes|..]) == Depth(b.scopes[|a.scopes|..]) + Depth(c.scopes[|b.scopes|..])
    ensures NeverBelow(b.scopes[|a.scopes|..]) && NeverBelow(c.scopes[|b.scopes|..])
      ==> NeverBelow(c.scopes[|a.scopes|..])
  {
    assert c.scopes[|a.scopes|..] == b.scopes[|a.scopes|..] + c.scopes[|b.scopes|..];
    DepthAppend(b.scopes[|a.scopes|..], c.scopes[|b.scopes|..]);
    if NeverBelow(b.scopes[|a.scopes|..]) && NeverBelow(c.scopes[|b.scopes|..]) {
      NeverBelowAppend(b.scopes[|a.scopes|..], c.scopes[|b.scopes|..]);
    }
  }

  /** The `exit_scope` that ends a block whose log is open by one scope. */
  lemma ChainExit(a: St, b: St)
    requires Grows(a, b) && NeverBelow(b.scopes[|a.scopes|..]) && Depth(b.scopes[|a.scopes|..]) == 1
    ensures Grows(a, Log(b, Exit))
    ensures NeverBelow(Log(b, Exit).scopes[|a.scopes|..]) && Depth(Log(b, Exit).scopes[|a.scopes|..]) == 0
  {
    Logged(b, Exit);
    Chain(a, b, Log(b, Exit));
    assert Log(b, Exit).scopes[|a.scopes|..] == b.scopes[|a.scopes|..] + [Exit];
    NeverBelowExit(b.scopes[|a.scopes|..]);
  }

  lemma Logged(s: St, e: Scope)
    requires !e.Restore?
    ensures Grows(s, Log(s, e)) && Depth(Log(s, e).scopes[|s.scopes|..]) == Delta(e)
    ensures e.Enter? ==> NeverBelow(Log(s, e).scopes[|s.scopes|..])
  {
    assert Log(s, e).scopes[|s.scopes|..] == [e];
    if e.Enter? {
      forall j | 0 <= j <= 1
        ensures Depth([e][..j]) >= 0
      {
        if j == 1 {
          assert [e][..j] == [e];
          assert [e][1..] == [];
        } else {
          assert [e][..j] == [];
        }
      }
    }
  }

  lemma Stays(s: St)
    ensures Grows(s, s) && Depth(s.scopes[|s.scopes|..]) == 0 && NeverBelow(s.scopes[|s.scopes|..])
  {
    var none: seq<Scope> := [];
    assert s.scopes[|s.scopes|..] == none;
    assert none[..0] == none;
  }

  lemma Lifted(s: St, r: Result<St>)
    requires r.Ok? ==> r.value.scopes == s.scopes && r.value.i == s.i && s.entries.Keys <= r.value.entries.Keys
    ensures Closed(s, Lift(r, s))
  {
    Stays(s);
  }

  lemma ArrayDeclGrows(s: St, n: Node)
    requires n.ArrayDec?
    ensures Closed(s, Lift(DeclareArray(s, n), s))
  {
    Lifted(s, DeclareArray(s, n));
  }

  lemma StructDeclGrows(s: St, n: Node)
    requires n.StructDec?
    ensures Closed(s, Lift(DeclareStruct(s, n), s))
  {
    Lifted(s, DeclareStruct(s, n));
  }

  lemma OtherDeclsGrow(s: St, n: Node)
    ensures n.VarDec? ==> Closed(s, Lift(DeclareVar(s, n), s))
    ensures n.GlobalStructDec? ==> Closed(s, Lift(DeclareGlobal(s, n), s))
    ensures n.StructInst? ==> Closed(s, Lift(DeclareInstance(s, n), s))
  {
    if n.VarDec? {
      Lifted(s, DeclareVar(s, n));
    } else if n.GlobalStructDec? {
      Lifted(s, DeclareGlobal(s, n));
    } else if n.StructInst? {
      Lifted(s, DeclareInstance(s, n));
    }
  }

  /** The first pass (`ASTVisitor`) never changes `i`, never drops a name and
      never restores a scope; when it succeeds it has exited every scope it
      entered. */
  lemma {:induction false} FirstPassClosed(s: St, n: Node, fuel: nat)
    ensures Closed(s, Visit(First, s, n, fuel))
    decreases n, 5, 0
  {
    if n.PyValue? {
      Stays(s);
    } else if n.Program? {
      BodyClosed(s, n.body, n, fuel);
    } else if n.ArrayDec? {
      ArrayDeclGrows(s, n);
    } else if n.StructDec? {
      StructDeclGrows(s, n);
    } else {
      VisitFirstClosed(s, n, fuel);
    }
  }

  lemma {:induction false} VisitFirstClosed(s: St, n: Node, fuel: nat)
    ensures Closed(s, VisitFirst(s, n, fuel))
    decreases n, 4, 0
  {
    if n.VarDec? || n.GlobalStructDec? || n.StructInst? {
      OtherDeclsGrow(s, n);
    } else if n.BlockStmt? {
      ScopedClosed(s, n.statements, n, fuel);
    } else if n.IfStmt? {
      IfFirstClosed(s, n, fuel);
    } else if n.FlankStmt? {
      ChoicesFirstClosed(s, n, 0, fuel);
    } else if n.ForStmt? {
      ScopedClosed(s, n.body, n, fuel);
    } else {
      ChildrenBelow(n);
      BodyClosed(s, GenericChildren(n), n, fuel);
    }
  }

  lemma {:induction false} BodyClosed(s: St, xs: seq<Node>, parent: Node, fuel: nat)
    requires Below(xs, parent)
    ensures Closed(s, VisitBody(First, s, xs, parent, fuel))
    decreases parent, 1, |xs|
  {
    if xs == [] {
      Stays(s);
    } else {
      var r := Visit(First, s, xs[0], fuel);
      FirstPassClosed(s, xs[0], fuel);
      if r.out.Ok? {
        BodyClosed(r.st, xs[1..], parent, fuel);
        Chain(s, r.st, VisitBody(First, r.st, xs[1..], parent, fuel).st);
      }
    }
  }

  lemma {:induction false} ScopedClosed(s: St, xs: seq<Node>, parent: Node, fuel: nat)
    requires Below(xs, parent)
    ensures Closed(s, Scoped(First, s, xs, parent, fuel))
    decreases parent, 2, 0
  {
    var s1 := Log(s, Enter);
    Logged(s, Enter);
    BodyClosed(s1, xs, parent, fuel);
    var r := VisitBody(First, s1, xs, parent, fuel);
    Chain(s, s1, r.st);
    if r.out.Ok? {
      ChainExit(s, r.st);
    }
  }

  lemma {:induction false} IfFirstClosed(s: St, n: Node, fuel: nat)
    requires n.IfStmt?
    ensures Closed(s, IfFirst(s, n, fuel))
    decreases n, 3, 0
  {
    ScopedClosed(s, n.thenBranch, n, fuel);
    var r := Scoped(First, s, n.thenBranch, n, fuel);
    if r.out.Ok? {
      var r2 := if n.elifBranches.SomeNodes? && n.elifBranches.nodes != [] then ElifsFirst(r.st, n, 0, fuel) else r;
      if n.elifBranches.SomeNodes? && n.elifBranches.nodes != [] {
        ElifsFirstClosed(r.st, n, 0, fuel);
        Chain(s, r.st, r2.st);
      }
      if r2.out.Ok? && n.elseBranch.SomeNodes? && n.elseBranch.nodes != [] {
        ScopedClosed(r2.st, n.elseBranch.nodes, n, fuel);
        Chain(s, r2.st, Scoped(First, r2.st, n.elseBranch.nodes, n, fuel).st);
      }
    }
  }

  lemma {:induction false} ElifsFirstClosed(s: St, n: Node, k: nat, fuel: nat)
    requires n.IfStmt? && n.elifBranches.SomeNodes? && k <= |n.elifBranches.nodes|
    ensures Closed(s, ElifsFirst(s, n, k, fuel))
    decreases n, 2, |n.elifBranches.nodes| - k + 1
  {
    var bs := n.elifBranches.nodes;
    if k == |bs| {
      Stays(s);
    } else if !bs[k].ElifBranch? {
      Logged(s, Enter);
    } else {
      assert bs[k] < n;
      ScopedClosed(s, bs[k].body, n, fuel);
      var r := Scoped(First, s, bs[k].body, n, fuel);
      if r.out.Ok? {
        ElifsFirstClosed(r.st, n, k + 1, fuel);
        Chain(s, r.st, ElifsFirst(r.st, n, k + 1, fuel).st);
      }
    }
  }

  lemma {:induction false} ChoicesFirstClosed(s: St, n: Node, k: nat, fuel: nat)
    requires n.FlankStmt? && k <= |n.choices|
    ensures Closed(s, ChoicesFirst(s, n, k, fuel))
    decreases n, 2, |n.choices| - k + 1
  {
    if k == |n.choices| {
      ScopedClosed(s, n.backupBody, n, fuel);
    } else if !n.choices[k].Choice? {
      Logged(s, Enter);
    } else {
      assert n.choices[k] < n;
      ScopedClosed(s, n.choices[k].body, n, fuel);
      var r := Scoped(First, s, n.choices[k].body, n, fuel);
      if r.out.Ok? {
        ChoicesFirstClosed(r.st, n, k + 1, fuel);
        Chain(s, r.st, ChoicesFirst(r.st, n, k + 1, fuel).st);
      }
    }
  }

  /** `check` starts the second pass with `i` at 1, which is where the first pass
      left it; on success the first pass has closed every scope it opened. */
  lemma SecondPassStartsAtOne(n: Node, fuel: nat)
    ensures var r1 := Visit(First, St(map[], [], 1), n, fuel);
      r1.st.i == 1 && r1.st.(i := 1) == r1.st && NoRestore(r1.st.scopes) && NeverBelow(r1.st.scopes)
      && (r1.out.Ok? ==> Depth(r1.st.scopes) == 0)
  {
    var r1 := Visit(First, St(map[], [], 1), n, fuel);
    FirstPassClosed(St(map[], [], 1), n, fuel);
    assert r1.st.scopes[0..] == r1.st.scopes;
  }
}
