/** The visitor objects of ludus/runtime/traverser.py: `ASTVisitor` and
    `SemanticAnalyzer` over a shared symbol table, with the methods that update
    the table and the branch counter `i` in place. Every method is proved to do
    what the corresponding function of `Traverser` says. */
module TraverserVisitor {
  import opened Results
  import opened Values
  import opened Nodes
  import NST = NewSymbolTable
  import opened Traverser

  /** The symbol table the two passes share: its bindings, and the scope calls
      made on it. */
  class Symbols {
    var entries: map<string, Entry>
    var scopes: seq<Scope>

    constructor ()
      ensures entries == map[] && scopes == []
    {
      entries := map[];
      scopes := [];
    }

    /** `define`. */
    method Define(name: string, b: Bound)
      modifies this
      ensures entries == old(entries)[name := Plain(b)] && scopes == old(scopes)
    {
      entries := entries[name := Plain(b)];
    }

    /** `define_var`. */
    method DefineVar(name: string, v: Bound, t: Option<string>, immo: Option<bool>)
      modifies this
      ensures entries == old(entries)[name := VarRec(v, t, immo)] && scopes == old(scopes)
    {
      entries := entries[name := VarRec(v, t, immo)];
    }

    /** `define_arr`. */
    method DefineArr(name: string, dims: seq<Option<int>>, els: Option<seq<Item>>, immo: Option<bool>, t: Option<string>)
      modifies this
      ensures entries == old(entries)[name := ArrRec(dims, els, immo, t)] && scopes == old(scopes)
    {
      entries := entries[name := ArrRec(dims, els, immo, t)];
    }

    /** `define_structinst`. */
    method DefineInst(name: string, parent: string, fields: seq<Slot>, immo: Option<bool>)
      modifies this
      ensures entries == old(entries)[name := InstRec(parent, fields, immo)] && scopes == old(scopes)
    {
      entries := entries[name := InstRec(parent, fields, immo)];
    }

    /** A write through a record the table holds: a list cell or a field
        dictionary changed in place. */
    method Store(name: string, e: Entry)
      modifies this
      ensures entries == old(entries)[name := e] && scopes == old(scopes)
    {
      entries := entries[name := e];
    }

    /** `enter_scope`, `exit_scope` and `restore_scope(i)`. */
    method Scoping(e: Scope)
      modifies this
      ensures entries == old(entries) && scopes == old(scopes) + [e]
    {
      scopes := scopes + [e];
    }
  }

  class Analyzer {
    /** Which of the two classes this object is. */
    const pass: Pass
    const table: Symbols
    /** `SemanticAnalyzer.i`; an `ASTVisitor` never uses it. */
    var i: int

    function State(): St
      reads this, table
    {
      St(table.entries, table.scopes, i)
    }

    /** `ASTVisitor()`: a new, empty table. */
    constructor Visitor()
      ensures pass == First && fresh(table) && State() == St(map[], [], 1)
    {
      pass := First;
      table := new Symbols();
      i := 1;
    }

    /** `SemanticAnalyzer(symbol_table)`: the table the first pass filled. */
    constructor Semantic(t: Symbols)
      ensures pass == Second && table == t && i == 1
    {
      pass := Second;
      table := t;
      i := 1;
    }

    // ---- dispatch ------------------------------------------------------------------

    /** `visit`. */
    method Visit(n: Node, fuel: nat) returns (r: Result<()>)
      modifies this, table
      decreases n, 6, 0
      ensures Run(r, State()) == Traverser.Visit(pass, old(State()), n, fuel)
    {
      if n.PyValue? {
        r := Fail(AttributeError, NoKind);
      } else if n.Program? {
        r := VisitBody(n.body, n, fuel);
      } else if n.ArrayDec? {
        r := DeclareArray(n);
      } else if n.StructDec? {
        r := DeclareStruct(n);
      } else if pass.First? {
        r := VisitFirst(n, fuel);
      } else {
        r := VisitSecond(n, fuel);
      }
    }

    method VisitFirst(n: Node, fuel: nat) returns (r: Result<()>)
      requires pass.First? && !n.PyValue? && !n.Program? && !n.ArrayDec? && !n.StructDec?
      modifies this, table
      decreases n, 5, 0
      ensures Run(r, State()) == Traverser.VisitFirst(old(State()), n, fuel)
    {
      if n.VarDec? {
        r := DeclareVar(n);
      } else if n.GlobalStructDec? {
        r := DeclareGlobal(n);
      } else if n.StructInst? {
        r := DeclareInstance(n);
      } else if n.BlockStmt? {
        r := Scoped(n.statements, n, fuel);
      } else if n.IfStmt? {
        r := IfFirst(n, fuel);
      } else if n.FlankStmt? {
        r := ChoicesFirst(n, fuel);
      } else if n.ForStmt? {
        r := Scoped(n.body, n, fuel);
      } else {
        r := Generic(n, fuel);
      }
    }

    method VisitSecond(n: Node, fuel: nat) returns (r: Result<()>)
      requires pass.Second? && !n.PyValue? && !n.Program? && !n.ArrayDec? && !n.StructDec?
      modifies this, table
      decreases n, 5, 0
      ensures Run(r, State()) == Traverser.VisitSecond(old(State()), n, fuel)
    {
      if n.VarDec? {
        r := RedeclareVar(n);
      } else if n.VarAssignment? {
        r := AssignVar(n);
      } else if n.BatchVarDec? {
        r := BatchVarDec(n, fuel);
      } else if n.ArrAssignment? {
        r := AssignCell(n);
      } else if n.ArrayRedec? {
        r := Redeclare(n);
      } else if n.StructInst? {
        r := Instantiate(n);
      } else if n.GlobalStructDec? {
        r := Ok(());
      } else if n.InstAssignment? {
        r := AssignField(n);
      } else if n.IfStmt? {
        r := IfSecond(n, fuel);
      } else if n.FlankStmt? {
        r := FlankSecond(n, fuel);
      } else if n.ForStmt? {
        r := ForSecond(n, fuel);
      } else if n.BlockStmt? {
        table.Scoping(Restore(i));
        r := VisitBody(n.statements, n, fuel);
      } else {
        r := Generic(n, fuel);
      }
    }

    /** `generic_visit`. */
    method Generic(n: Node, fuel: nat) returns (r: Result<()>)
      modifies this, table
      decreases n, 4, 0
      ensures Run(r, State()) == Traverser.Generic(pass, old(State()), n, fuel)
    {
      ChildrenBelow(n);
      r := VisitBody(GenericChildren(n), n, fuel);
    }

    /** `for stmt in xs: self.visit(stmt)`. */
    method VisitBody(xs: seq<Node>, parent: Node, fuel: nat) returns (r: Result<()>)
      requires Below(xs, parent)
      modifies this, table
      decreases parent, 1, |xs|
      ensures Run(r, State()) == Traverser.VisitBody(pass, old(State()), xs, parent, fuel)
    {
      var k := 0;
      while k < |xs|
        invariant 0 <= k <= |xs|
        invariant Traverser.VisitBody(pass, old(State()), xs, parent, fuel) == Traverser.VisitBody(pass, State(), xs[k..], parent, fuel)
      {
        assert xs[k..][1..] == xs[k + 1..];
        r := Visit(xs[k], fuel);
        if r.Err? {
          return;
        }
        k := k + 1;
      }
      r := Ok(());
    }

    /** `enter_scope()`, the statements, `exit_scope()`. */
    method Scoped(xs: seq<Node>, parent: Node, fuel: nat) returns (r: Result<()>)
      requires Below(xs, parent)
      modifies this, table
      decreases parent, 2, 0
      ensures Run(r, State()) == Traverser.Scoped(pass, old(State()), xs, parent, fuel)
    {
      table.Scoping(Enter);
      r := VisitBody(xs, parent, fuel);
      if r.Ok? {
        table.Scoping(Exit);
        r := Ok(());
      }
    }

    /** `restore_scope(self.i)`, the statements, `exit_scope()`, `self.i += 1`. */
    method Restored(xs: seq<Node>, parent: Node, fuel: nat) returns (r: Result<()>)
      requires pass.Second? && Below(xs, parent)
      modifies this, table
      decreases parent, 2, 0
      ensures Run(r, State()) == Traverser.Restored(old(State()), xs, parent, fuel)
    {
      table.Scoping(Restore(i));
      r := VisitBody(xs, parent, fuel);
      if r.Ok? {
        table.Scoping(Exit);
        i := i + 1;
        r := Ok(());
      }
    }

    // ---- ASTVisitor ----------------------------------------------------------------

    /** `ASTVisitor.visit_VarDec`. */
    method DeclareVar(n: Node) returns (r: Result<()>)
      requires n.VarDec?
      modifies table
      ensures Run(r, State()) == Lift(Traverser.DeclareVar(old(State()), n), old(State()))
    {
      var name :- Sym(n.name);
      table.Define(name, AsBound(n.value));
      r := Ok(());
    }

    /** The element loop of a one-dimensional initialiser or of one row. */
    method EvalFlat(cells: seq<Cell>) returns (r: Result<Evaluated>)
      ensures r == FlatFrom(table.entries, cells, 0, Evaluated([], []))
    {
      var acc := Evaluated([], []);
      var k := 0;
      while k < |cells|
        invariant 0 <= k <= |cells|
        invariant FlatFrom(table.entries, cells, k, acc) == FlatFrom(table.entries, cells, 0, Evaluated([], []))
      {
        var b := EvalCell(table.entries, cells[k]);
        if b.Err? {
          return Err(b.exc);
        }
        acc := Evaluated(acc.items + [Cell(b.value)], acc.types + [TypeOfBound(b.value)]);
        k := k + 1;
      }
      r := Ok(acc);
    }

    /** The row loop of a multi-dimensional initialiser. */
    method EvalRows(rows: seq<Cell>) returns (r: Result<Evaluated>)
      ensures r == RowsFrom(table.entries, rows, 0, Evaluated([], []))
    {
      var acc := Evaluated([], []);
      var k := 0;
      while k < |rows|
        invariant 0 <= k <= |rows|
        invariant RowsFrom(table.entries, rows, k, acc) == RowsFrom(table.entries, rows, 0, Evaluated([], []))
      {
        if rows[k].Leaf? {
          return Fail(TypeError, NotIterable);
        }
        var inner := EvalFlat(rows[k].cells);
        if inner.Err? {
          return Err(inner.exc);
        }
        acc := Evaluated(acc.items + [List(inner.value.items)], acc.types + inner.value.types);
        k := k + 1;
      }
      r := Ok(acc);
    }

    method EvalInit(dims: seq<Option<int>>, cells: seq<Cell>) returns (r: Result<Evaluated>)
      ensures r == Traverser.EvalInit(table.entries, dims, cells)
    {
      if |dims| == 1 {
        r := EvalFlat(cells);
      } else {
        r := EvalRows(cells);
      }
    }

    /** `visit_ArrayDec`. */
    method DeclareArray(n: Node) returns (r: Result<()>)
      requires n.ArrayDec?
      modifies table
      ensures Run(r, State()) == Lift(Traverser.DeclareArray(old(State()), n), old(State()))
    {
      if n.elements.NoCells? {
        var name :- Sym(n.name);
        table.DefineArr(name, n.dimensions, None, n.immo, n.dtype);
      } else {
        var ev :- EvalInit(n.dimensions, n.elements.cells);
        if |TypeSet(ev.types)| > 1 {
          return Fail(SemanticError, MixedArray);
        }
        var name :- Sym(n.name);
        table.DefineArr(name, n.dimensions, Some(ev.items), n.immo, ArrayType(n.dimensions, n.elements.cells, n.dtype, ev.types));
      }
      r := Ok(());
    }

    /** The field loop of `visit_StructDec`. */
    method StructFields(body: seq<Node>) returns (r: Result<seq<NST.FieldInfo>>)
      ensures r == FieldsFrom(table.entries, body, 0, [])
    {
      var fields: seq<NST.FieldInfo> := [];
      var k := 0;
      while k < |body|
        invariant 0 <= k <= |body|
        invariant FieldsFrom(table.entries, body, k, fields) == FieldsFrom(table.entries, body, 0, [])
      {
        var f :- FieldOf(table.entries, body[k]);
        fields := Put(fields, f);
        k := k + 1;
      }
      r := Ok(fields);
    }

    /** `visit_StructDec`. */
    method DeclareStruct(n: Node) returns (r: Result<()>)
      requires n.StructDec?
      modifies table
      ensures Run(r, State()) == Lift(Traverser.DeclareStruct(old(State()), n), old(State()))
    {
      var fields :- StructFields(n.body);
      var name :- Sym(n.name);
      table.Define(name, NST.FieldDict(fields));
      r := Ok(());
    }

    /** `ASTVisitor.visit_GlobalStructDec`. */
    method DeclareGlobal(n: Node) returns (r: Result<()>)
      requires n.GlobalStructDec?
      modifies table
      ensures Run(r, State()) == Lift(Traverser.DeclareGlobal(old(State()), n), old(State()))
    {
      var name :- Sym(n.name);
      table.Define(name, NST.FieldDict([]));
      r := Ok(());
    }

    /** `ASTVisitor.visit_StructInst`. */
    method DeclareInstance(n: Node) returns (r: Result<()>)
      requires n.StructInst?
      modifies table
      ensures Run(r, State()) == Lift(Traverser.DeclareInstance(old(State()), n), old(State()))
    {
      var fields: seq<Slot> := [];
      var k := 0;
      while k < |n.body|
        invariant 0 <= k <= |n.body|
        invariant table.entries == old(table.entries) && table.scopes == old(table.scopes)
        invariant RawFrom(n.body, k, fields) == RawFrom(n.body, 0, [])
      {
        if !n.body[k].StructFields? {
          return Fail(AttributeError, "object has no attribute 'value'");
        }
        fields := fields + [Raw(AsBound(n.body[k].fieldValue))];
        k := k + 1;
      }
      var name :- Sym(n.name);
      table.DefineInst(name, n.parent, fields, n.immo);
      r := Ok(());
    }

    /** The three `if` parts of `ASTVisitor.visit_IfStmt`. */
    method IfFirst(n: Node, fuel: nat) returns (r: Result<()>)
      requires pass.First? && n.IfStmt?
      modifies this, table
      decreases n, 4, 0
      ensures Run(r, State()) == Traverser.IfFirst(old(State()), n, fuel)
    {
      r := Scoped(n.thenBranch, n, fuel);
      if r.Err? {
        return;
      }
      if n.elifBranches.SomeNodes? && n.elifBranches.nodes != [] {
        r := ElifsFirst(n, fuel);
        if r.Err? {
          return;
        }
      }
      if n.elseBranch.SomeNodes? && n.elseBranch.nodes != [] {
        r := Scoped(n.elseBranch.nodes, n, fuel);
      }
    }

    /** `for branch in node.elif_branches`, each in its own scope. */
    method ElifsFirst(n: Node, fuel: nat) returns (r: Result<()>)
      requires pass.First? && n.IfStmt? && n.elifBranches.SomeNodes?
      modifies this, table
      decreases n, 3, 0
      ensures Run(r, State()) == Traverser.ElifsFirst(old(State()), n, 0, fuel)
    {
      var bs := n.elifBranches.nodes;
      var k := 0;
      while k < |bs|
        invariant 0 <= k <= |bs|
        invariant Traverser.ElifsFirst(old(State()), n, 0, fuel) == Traverser.ElifsFirst(State(), n, k, fuel)
      {
        table.Scoping(Enter);
        if !bs[k].ElifBranch? {
          return Fail(AttributeError, WrongNode + " 'body'");
        }
        assert bs[k] < n;
        r := VisitBody(bs[k].body, n, fuel);
        if r.Err? {
          return;
        }
        table.Scoping(Exit);
        k := k + 1;
      }
      r := Ok(());
    }

    /** `ASTVisitor.visit_FlankStmt`: each choice body and the backup, scoped. */
    method ChoicesFirst(n: Node, fuel: nat) returns (r: Result<()>)
      requires pass.First? && n.FlankStmt?
      modifies this, table
      decreases n, 3, 0
      ensures Run(r, State()) == Traverser.FlankFirst(old(State()), n, fuel)
    {
      var k := 0;
      while k < |n.choices|
        invariant 0 <= k <= |n.choices|
        invariant Traverser.ChoicesFirst(old(State()), n, 0, fuel) == Traverser.ChoicesFirst(State(), n, k, fuel)
      {
        table.Scoping(Enter);
        if !n.choices[k].Choice? {
          return Fail(AttributeError, WrongNode + " 'body'");
        }
        assert n.choices[k] < n;
        r := VisitBody(n.choices[k].body, n, fuel);
        if r.Err? {
          return;
        }
        table.Scoping(Exit);
        k := k + 1;
      }
      r := Scoped(n.backupBody, n, fuel);
    }

    // ---- SemanticAnalyzer: declarations and assignments --------------------------------

    /** `SemanticAnalyzer.visit_VarDec`, as evidently intended. */
    method RedeclareVar(n: Node) returns (r: Result<()>)
      requires n.VarDec?
      modifies table
      ensures Run(r, State()) == Lift(Traverser.RedeclareVar(old(State()), n), old(State()))
    {
      var v :- Eval(table.entries, n.value);
      var name :- Sym(n.name);
      table.DefineVar(name, v, DeclaredValueType(n.value, v), None);
      r := Ok(());
    }

    /** `visit_VarAssignmentStmt`. */
    method AssignVar(n: Node) returns (r: Result<()>)
      requires HasAssignParts(n)
      modifies table
      ensures Run(r, State()) == Lift(Traverser.AssignVar(old(State()), n), old(State()))
    {
      var name :- Sym(n.left);
      var rec :- Lookup(table.entries, name);
      var vtype :- TypeKey(rec);
      var immo :- ImmoKey(rec);
      if immo == Some(true) {
        return Fail(SemanticError, Immutable("AssignmentError: ", name) + "variable.");
      }
      var nv :- Eval(table.entries, n.right);
      var res :- Assigned(ValueKey(rec), nv, n.operator);
      if Some(TypeOfBound(res)) != vtype {
        return Fail(SemanticError, "TypeMismatchError: Type mismatch for variable '" + name + "'.");
      }
      table.DefineVar(name, res, Some(TypeOfBound(res)), immo);
      r := Ok(());
    }

    /** `visit_BatchVarDec`: each declaration, then one type for all. */
    method BatchVarDec(n: Node, fuel: nat) returns (r: Result<()>)
      requires pass.Second? && n.BatchVarDec?
      modifies this, table
      decreases n, 3, 0
      ensures Run(r, State()) == BatchFrom(old(State()), n, 0, {}, fuel)
    {
      var types: set<Option<string>> := {};
      var k := 0;
      while k < |n.declarations|
        invariant 0 <= k <= |n.declarations|
        invariant BatchFrom(old(State()), n, 0, {}, fuel) == BatchFrom(State(), n, k, types, fuel)
      {
        var d := n.declarations[k];
        r := Visit(d, fuel);
        if r.Err? {
          return;
        }
        var t := DeclaredType(table.entries, d);
        if t.Err? {
          return Err(t.exc);
        }
        types := types + {t.value};
        k := k + 1;
      }
      if |types| > 1 {
        r := Fail(SemanticError, MixedBatch);
      } else {
        r := Ok(());
      }
    }

    /** The loop over all indices but the last. */
    method Walk(name: string, idx: seq<Node>, root: Item) returns (r: Result<seq<int>>)
      ensures r == WalkFrom(table.entries, name, idx, 0, root, [])
    {
      var path: seq<int> := [];
      var k := 0;
      while k + 1 < |idx|
        invariant 0 <= k <= |idx|
        invariant WalkFrom(table.entries, name, idx, k, root, path) == WalkFrom(table.entries, name, idx, 0, root, [])
      {
        var b :- Eval(table.entries, idx[k]);
        var ok :- CheckIndex(b, Follow(root, path), name);
        if b.v.Xp? {
          return Fail(TypeError, FloatIndex);
        }
        path := path + [IntOf(b.v)];
        k := k + 1;
      }
      r := Ok(path);
    }

    /** The checks of `visit_ArrayAssignmentStmt` before the write. */
    method Locate(n: Node) returns (r: Result<Target>)
      requires n.ArrAssignment?
      ensures r == Traverser.Locate(State(), n)
    {
      if !n.left.ArrElement? {
        return Fail(AttributeError, WrongNode + " 'left'");
      }
      var name :- Sym(n.left.left);
      var rec :- Lookup(table.entries, name);
      var immo :- ImmoKey(rec);
      var atype :- TypeKey(rec);
      if immo == Some(true) {
        return Fail(SemanticError, Immutable("ArrayAssignmentError: ", name) + "array.");
      }
      var data :- ElementsKey(rec);
      if data.None? {
        return Fail(SemanticError, "ArrayAssignmentError: Array '" + name + "' is a dead array.");
      }
      var dims :- DimsKey(rec);
      var idx := n.left.index;
      if |dims| != |idx| {
        return Fail(SemanticError, "ArrayIndexError: Incorrect number of dimensions for '" + name + "'.");
      }
      var path :- Walk(name, idx, List(data.value));
      if |idx| == 0 {
        return Fail(IndexError, "list index out of range");
      }
      var last :- Eval(table.entries, idx[|idx| - 1]);
      var ok :- CheckIndex(last, Follow(List(data.value), path), name);
      r := Ok(Target(name, rec, data.value, path, last));
    }

    /** `visit_ArrayAssignmentStmt`. */
    method AssignCell(n: Node) returns (r: Result<()>)
      requires n.ArrAssignment?
      modifies table
      ensures Run(r, State()) == Traverser.AssignCell(old(State()), n)
    {
      var t :- Locate(n);
      var nv :- Eval(table.entries, n.right);
      if t.last.v.Xp? {
        return Fail(TypeError, FloatIndex);
      }
      var v :- Assigned(Ok(Current(t)), nv, n.operator);
      if Follow(List(t.data), t.path).Cell? {
        return Fail(TypeError, StrAssign);
      }
      var data := PutAt(List(t.data), t.path + [IntOf(t.last.v)], Cell(v)).items;
      table.Store(t.name, t.rec.(elements := Some(data)));
      if Some(TypeOfBound(v)) != t.rec.atype {
        return Fail(SemanticError, "TypeMismatchError: Array '" + t.name + "' expects another data type.");
      }
      table.DefineArr(t.name, t.rec.dims, Some(data), t.rec.immo, t.rec.atype);
      r := Ok(());
    }

    /** `visit_ArrayRedec`. */
    method Redeclare(n: Node) returns (r: Result<()>)
      requires n.ArrayRedec?
      modifies table
      ensures Run(r, State()) == Lift(Traverser.Redeclare(old(State()), n), old(State()))
    {
      var rec :- Lookup(table.entries, n.arrName);
      var immo :- ImmoKey(rec);
      var atype :- TypeKey(rec);
      var dims :- DimsKey(rec);
      if immo == Some(true) {
        return Fail(SemanticError, Immutable("RedeclerationError: ", n.arrName) + "array.");
      }
      if |n.dimensions| != |dims| {
        return Fail(SemanticError, "RedeclerationError: Incorrect number of dimensions.");
      }
      if n.elements.NoCells? {
        return Fail(TypeError, NoneNotIterable);
      }
      var ev :- EvalInit(n.dimensions, n.elements.cells);
      var k := 0;
      while k < |ev.types|
        invariant 0 <= k <= |ev.types|
        invariant forall j :: 0 <= j < k ==> Some(ev.types[j]) == atype
      {
        if Some(ev.types[k]) != atype {
          return Fail(SemanticError, "TypeError: Array '" + n.arrName + "' expects another datatype.");
        }
        k := k + 1;
      }
      table.DefineArr(n.arrName, n.dimensions, Some(ev.items), n.immo, atype);
      r := Ok(());
    }

    /** The field loop of `SemanticAnalyzer.visit_StructInst`. */
    method Fill(given: seq<Slot>, decl: seq<NST.FieldInfo>) returns (r: Result<seq<Slot>>)
      ensures r == FillFrom(given, decl, 0, [])
    {
      var acc: seq<Slot> := [];
      var k := 0;
      while k < |decl|
        invariant 0 <= k <= |decl|
        invariant FillFrom(given, decl, k, acc) == FillFrom(given, decl, 0, [])
      {
        if k < |given| {
          if MappedType(SlotValue(given[k])) != decl[k].dtype {
            return Fail(SemanticError, FieldMismatch(decl[k].name));
          }
          acc := acc + [Named(decl[k].name, SlotValue(given[k]))];
        } else {
          acc := acc + [Named(decl[k].name, decl[k].value)];
        }
        k := k + 1;
      }
      r := Ok(acc);
    }

    /** `SemanticAnalyzer.visit_StructInst`. */
    method Instantiate(n: Node) returns (r: Result<()>)
      requires n.StructInst?
      modifies table
      ensures Run(r, State()) == Lift(Traverser.Instantiate(old(State()), n), old(State()))
    {
      var name :- Sym(n.name);
      var rec :- Lookup(table.entries, name);
      var parent :- ParentKey(rec);
      var prec :- Lookup(table.entries, parent);
      var given :- FieldsKey(rec);
      if !(prec.Plain? && prec.b.FieldDict?) {
        return Fail(AttributeError, "object has no attribute 'keys'");
      }
      if |given| > |prec.b.fields| {
        return Fail(SemanticError, "Too many values provided for struct '" + parent + "'.");
      }
      var filled :- Fill(given, prec.b.fields);
      table.DefineInst(name, n.parent, filled, n.immo);
      r := Ok(());
    }

    /** `[field["name"] for field in fields]`. */
    method Names(fields: seq<Slot>) returns (r: Result<seq<string>>)
      ensures r == NamesFrom(fields, 0, [])
    {
      var acc: seq<string> := [];
      var k := 0;
      while k < |fields|
        invariant 0 <= k <= |fields|
        invariant NamesFrom(fields, k, acc) == NamesFrom(fields, 0, [])
      {
        if fields[k].Raw? {
          return Fail(TypeError, NotSubscriptable);
        }
        acc := acc + [fields[k].name];
        k := k + 1;
      }
      r := Ok(acc);
    }

    /** The checks of `visit_InstAssignmentStmt` before its loop. */
    method Aim(n: Node) returns (r: Result<(Goal, Bound)>)
      requires n.InstAssignment?
      ensures r == Traverser.Aim(State(), n)
    {
      if !n.left.StructInstField? {
        return Fail(AttributeError, WrongNode + " 'instance'");
      }
      var inst :- Sym(n.left.instance);
      var rec :- Lookup(table.entries, inst);
      var immo :- ImmoKey(rec);
      if immo == Some(true) {
        return Fail(SemanticError, Immutable("InstanceAssignmentError: ", inst) + "struct instance.");
      }
      var fields :- FieldsKey(rec);
      var names :- Names(fields);
      var field :- Sym(n.left.field);
      if field !in names {
        return Fail(SemanticError, "FieldError: Field '" + field + "' does not exist in struct instance '" + inst + "'.");
      }
      var nv :- Eval(table.entries, n.right);
      r := Ok((Goal(inst, rec, field, n.operator), nv));
    }

    /** `visit_InstAssignmentStmt`: every field with the target name is updated
        in place, then the record is stored again. */
    method AssignField(n: Node) returns (r: Result<()>)
      requires n.InstAssignment?
      modifies table
      ensures Run(r, State()) == Traverser.AssignField(old(State()), n)
    {
      var a :- Aim(n);
      var g := a.0;
      var nv := a.1;
      var fs := g.rec.fields;
      var k := 0;
      while k < |fs|
        invariant 0 <= k <= |fs| && forall j :: 0 <= j < |fs| ==> fs[j].Named?
        invariant Traverser.AssignField(old(State()), n) == FieldLoop(State(), g, fs, nv, k)
        invariant i == old(i)
      {
        if fs[k].name == g.field {
          var prev := fs[k].value;
          var v :- Assigned(Ok(prev), nv, g.op);
          if MappedType(v) != MappedType(prev) {
            return Fail(SemanticError, FieldMismatch(g.field));
          }
          fs := fs[k := Named(fs[k].name, v)];
          table.Store(g.inst, InstRec(g.rec.parent, fs, g.rec.immo));
          nv := v;
        }
        k := k + 1;
      }
      table.DefineInst(g.inst, g.rec.parent, fs, g.rec.immo);
      r := Ok(());
    }

    // ---- SemanticAnalyzer: control statements -------------------------------------------

    /** The conditions of an `if`, gathered before any branch runs. */
    method Conditions(n: Node) returns (r: Result<seq<bool>>)
      requires n.IfStmt?
      ensures r == Traverser.Conditions(table.entries, n)
    {
      var c :- Eval(table.entries, n.condition);
      if !IsBool(c) {
        return Fail(SemanticError, NotFlag);
      }
      var cs := [c.v.flag];
      if n.elifBranches.NoNodes? {
        return Ok(cs);
      }
      var bs := n.elifBranches.nodes;
      var k := 0;
      while k < |bs|
        invariant 0 <= k <= |bs|
        invariant ElifConditionsFrom(table.entries, bs, k, cs) == Traverser.Conditions(table.entries, n)
      {
        if !bs[k].ElifBranch? {
          return Fail(AttributeError, WrongNode + " 'condition'");
        }
        var e :- Eval(table.entries, bs[k].condition);
        if !IsBool(e) {
          return Fail(SemanticError, NotFlag);
        }
        cs := cs + [e.v.flag];
        k := k + 1;
      }
      r := Ok(cs);
    }

    /** `SemanticAnalyzer.visit_IfStmt`. */
    method IfSecond(n: Node, fuel: nat) returns (r: Result<()>)
      requires pass.Second? && n.IfStmt?
      modifies this, table
      decreases n, 4, 0
      ensures Run(r, State()) == Traverser.IfSecond(old(State()), n, fuel)
    {
      var cs := Conditions(n);
      if cs.Err? {
        return Err(cs.exc);
      }
      ConditionsBranches(table.entries, n);
      r := TakeBranch(n, cs.value, fuel);
    }

    /** `for cond in conditions`: the first true branch, else the else branch. */
    method TakeBranch(n: Node, cs: seq<bool>, fuel: nat) returns (r: Result<()>)
      requires pass.Second? && Branches(n, cs)
      modifies this, table
      decreases n, 3, 0
      ensures Run(r, State()) == FirstTrue(old(State()), n, cs, 0, fuel)
    {
      var k := 0;
      while k < |cs|
        invariant 0 <= k <= |cs|
        invariant FirstTrue(old(State()), n, cs, 0, fuel) == FirstTrue(State(), n, cs, k, fuel)
      {
        if cs[k] {
          r := Restored(BranchBody(n, cs, k), n, fuel);
          return;
        }
        i := i + 1;
        k := k + 1;
      }
      if n.elseBranch.NoNodes? {
        r := Ok(());
      } else {
        r := Restored(n.elseBranch.nodes, n, fuel);
      }
    }

    /** `for choice_value in choice.values`: is one of them equal to `e`? */
    method MatchValues(vs: seq<Node>, e: Bound) returns (r: Result<bool>)
      ensures r == Matches(table.entries, vs, e, 0)
    {
      var k := 0;
      while k < |vs|
        invariant 0 <= k <= |vs|
        invariant Matches(table.entries, vs, e, k) == Matches(table.entries, vs, e, 0)
      {
        var v :- Eval(table.entries, vs[k]);
        if PyEq(v, e) {
          return Ok(true);
        }
        k := k + 1;
      }
      r := Ok(false);
    }

    /** `SemanticAnalyzer.visit_FlankStmt`. */
    method FlankSecond(n: Node, fuel: nat) returns (r: Result<()>)
      requires pass.Second? && n.FlankStmt?
      modifies this, table
      decreases n, 4, 0
      ensures Run(r, State()) == Traverser.FlankSecond(old(State()), n, fuel)
    {
      var e := Eval(table.entries, n.expression);
      if e.Err? {
        return Err(e.exc);
      }
      r := Choose(n, e.value, fuel);
    }

    /** The choice loop of `visit_FlankStmt`, then the backup body. */
    method Choose(n: Node, e: Bound, fuel: nat) returns (r: Result<()>)
      requires pass.Second? && n.FlankStmt?
      modifies this, table
      decreases n, 3, 0
      ensures Run(r, State()) == ChoicesFrom(old(State()), n, e, 0, fuel)
    {
      var k := 0;
      while k < |n.choices|
        invariant 0 <= k <= |n.choices|
        invariant ChoicesFrom(old(State()), n, e, 0, fuel) == ChoicesFrom(State(), n, e, k, fuel)
      {
        var more;
        r, more := ChoiceStep(n, e, k, fuel);
        if !more {
          return;
        }
        k := k + 1;
      }
      r := Restored(n.backupBody, n, fuel);
    }

    /** One choice of `visit_FlankStmt`: its values are compared with `e`; a match
        runs its body, and ends the statement unless the body holds a `resume`. */
    method ChoiceStep(n: Node, e: Bound, k: nat, fuel: nat) returns (r: Result<()>, more: bool)
      requires pass.Second? && n.FlankStmt? && k < |n.choices|
      modifies this, table
      decreases n, 2, 1
      ensures more ==> ChoicesFrom(old(State()), n, e, k, fuel) == ChoicesFrom(State(), n, e, k + 1, fuel)
      ensures !more ==> Run(r, State()) == ChoicesFrom(old(State()), n, e, k, fuel)
    {
      more := false;
      if !n.choices[k].Choice? {
        return Fail(AttributeError, WrongNode + " 'values'"), false;
      }
      var ch := n.choices[k];
      assert ch < n;
      var m :- MatchValues(ch.values, e);
      if m {
        r := Restored(ch.body, n, fuel);
        more := r.Ok? && HasResume(ch.body);
      } else {
        i := i + 1;
        r, more := Ok(()), true;
      }
    }

    /** `SemanticAnalyzer.visit_ForStmt`. */
    method ForSecond(n: Node, fuel: nat) returns (r: Result<()>)
      requires pass.Second? && n.ForStmt?
      modifies this, table
      decreases n, 4, 0
      ensures Run(r, State()) == Traverser.ForSecond(old(State()), n, fuel)
    {
      if !n.initialization.Initialization? {
        return Fail(AttributeError, WrongNode + " 'left'");
      }
      var f :- ForHead(State(), n);
      table.DefineVar(f.name, f.start, f.vtype, f.immo);
      r := ForRest(n, f, fuel);
    }

    /** The loop and the restoring of the loop variable. */
    method ForRest(n: Node, f: ForStart, fuel: nat) returns (r: Result<()>)
      requires pass.Second? && n.ForStmt?
      modifies this, table
      decreases n, 3, 1
      ensures Run(r, State()) == Traverser.ForRest(old(State()), n, f, fuel)
    {
      var c :- Eval(table.entries, n.condition);
      if !IsBool(c) {
        return Fail(SemanticError, ForCondition);
      }
      if c.v.flag {
        table.Scoping(Restore(i));
        r := ForLoop(n, fuel);
        if r.Err? {
          return;
        }
        table.Scoping(Exit);
        i := i + 1;
      }
      var prev :- ValueKey(f.rec);
      table.DefineVar(f.name, prev, f.vtype, f.immo);
      r := Ok(());
    }

    /** `self.visit_VarAssignmentStmt(node.update)`. */
    method Update(u: Node) returns (r: Result<()>)
      modifies table
      ensures Run(r, State()) == Lift(Traverser.Update(old(State()), u), old(State()))
    {
      if HasAssignParts(u) {
        r := AssignVar(u);
      } else {
        r := Fail(AttributeError, WrongNode + " 'left'");
      }
    }

    /** `while evaluate(node.condition)`: the body, then the update; at most
        `fuel` rounds. */
    method ForLoop(n: Node, fuel: nat) returns (r: Result<()>)
      requires pass.Second? && n.ForStmt?
      modifies this, table
      decreases n, 3, 0
      ensures Run(r, State()) == Traverser.ForLoop(old(State()), n, fuel)
    {
      var left := fuel;
      while left > 0
        invariant Traverser.ForLoop(old(State()), n, fuel) == Traverser.ForLoop(State(), n, left)
      {
        var more;
        r, more := Round(n, left);
        if !more {
          return;
        }
        left := left - 1;
      }
      assert Traverser.ForLoop(State(), n, 0) == Run(Fail(Unfinished, LoopBound), State());
      r := Fail(Unfinished, LoopBound);
    }

    /** One test of the loop condition and, when it holds, one round. */
    method Round(n: Node, left: nat) returns (r: Result<()>, more: bool)
      requires pass.Second? && n.ForStmt? && left > 0
      modifies this, table
      decreases n, 2, 0
      ensures more ==> Traverser.ForLoop(old(State()), n, left) == Traverser.ForLoop(State(), n, left - 1)
      ensures !more ==> Run(r, State()) == Traverser.ForLoop(old(State()), n, left)
    {
      more := false;
      var c :- Eval(table.entries, n.condition);
      if !Truthy(c) {
        return Ok(()), false;
      }
      r := VisitBody(n.body, n, left);
      if r.Err? {
        return;
      }
      r := Update(n.update);
      more := r.Ok?;
    }
  }

  /** The `try` block of `check`: `ASTVisitor().visit(ast)`, then
      `SemanticAnalyzer(visitor.symbol_table).visit(ast)`. */
  method Passes(n: Node, fuel: nat) returns (r: Result<map<string, Entry>>)
    ensures r == Traverser.Passes(n, fuel)
  {
    var visitor := new Analyzer.Visitor();
    var out := visitor.Visit(n, fuel);
    if out.Err? {
      return Err(out.exc);
    }
    var analyzer := new Analyzer.Semantic(visitor.table);
    out := analyzer.Visit(n, fuel);
    if out.Err? {
      return Err(out.exc);
    }
    r := Ok(analyzer.table.entries);
  }
}
