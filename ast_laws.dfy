/** Properties of the statement parser of ludus/ast.py, stated on the functions of
    module `Ast`: the defaults of declarations without a value, the shapes of
    arrays, the shape of an initialiser, struct declarations and instances, and
    the choice between a declaration and an assignment. */
module AstLaws {
  import opened Results
  import opened Values
  import opened Nodes
  import Lexer
  import H = HelperParser
  import N = NewAst
  import SymbolTable
  import Interpreter
  import opened Ast

  // ---- declarations without a value -------------------------------------------------

  /** Defining every name of a list with one value binds each of them to it and
      leaves every other name as it was. */
  lemma {:induction false} DefineEachBinds(vars: map<string, Value>, names: seq<string>, v: Value)
    ensures DefineEach(vars, names, v).Keys == vars.Keys + set k | 0 <= k < |names| :: names[k]
    ensures forall k :: 0 <= k < |names| ==> names[k] in DefineEach(vars, names, v)
    ensures forall k :: 0 <= k < |names| ==> DefineEach(vars, names, v)[names[k]] == v
    ensures forall n :: n in vars && n !in names ==> DefineEach(vars, names, v)[n] == vars[n]
    decreases |names|
  {
    if names != [] {
      DefineEachBinds(vars[names[0] := v], names[1..], v);
      var r := DefineEach(vars, names, v);
      forall k | 0 <= k < |names| ensures r[names[k]] == v {
        if k > 0 { assert names[k] == names[1..][k - 1]; }
      }
      var rest := set k | 0 <= k < |names[1..]| :: names[1..][k];
      var all := set k | 0 <= k < |names| :: names[k];
      assert all == {names[0]} + rest by {
        forall x | x in all ensures x in {names[0]} + rest {
          var k :| 0 <= k < |names| && names[k] == x;
          if k > 0 { assert names[1..][k - 1] == x; }
        }
        forall x | x in rest ensures x in all {
          var k :| 0 <= k < |names[1..]| && names[1..][k] == x;
          assert names[k + 1] == x;
        }
      }
      forall n | n in vars && n !in names ensures r[n] == vars[n] {
        assert n !in names[1..];
      }
    }
  }

  /** `type name, ...` at a newline: for one of the four value types every name is
      bound to that type's default (hp 0, xp 0.0, comms '', flag False); any other
      type is a `ParserError`. */
  lemma UndeclaredDefaults(toks: seq<Lexer.Token>, st: Store, dt: string, names: seq<string>, p: nat)
    requires p <= |toks| && |names| >= 1 && H.At(toks, p, "newline")
    ensures VarDecEnd(toks, st, dt, names, p).Ok? <==> IsTypeKeyword(dt)
    ensures !IsTypeKeyword(dt) ==> VarDecEnd(toks, st, dt, names, p) == Fail(ParserError, UnknownType(dt))
    ensures IsTypeKeyword(dt) ==> forall k :: 0 <= k < |names| ==>
      names[k] in VarDecEnd(toks, st, dt, names, p).value.store.vars
      && VarDecEnd(toks, st, dt, names, p).value.store.vars[names[k]]
        == (if dt == "hp" then Hp(0) else if dt == "xp" then Xp(0.0) else if dt == "comms" then Comms("") else Flag(false))
  {
    if IsTypeKeyword(dt) {
      DefineEachBinds(st.vars, names, DefaultValue(dt).value);
    }
  }

  // ---- arrays without an initialiser ------------------------------------------------

  /** The values of an array declared without initialiser, shape by shape: `[n]`
      gives n defaults, `[]` none, `[m][n]` m rows of n defaults, `[][n]` a flat list
      of n defaults, `[m][]` m empty rows. */
  lemma EmptyShapes<T>(dims: seq<Option<int>>, x: T, row: seq<T> -> T)
    requires |dims| >= 1
    ensures |dims| == 1 && dims[0].Some? && dims[0].value >= 0 ==>
      |EmptyShape(dims, x, row)| == dims[0].value && forall k :: 0 <= k < dims[0].value ==> EmptyShape(dims, x, row)[k] == x
    ensures |dims| == 1 && dims[0].None? ==> EmptyShape(dims, x, row) == []
    ensures |dims| == 2 && dims[0].Some? && dims[1].Some? && dims[0].value >= 0 ==>
      |EmptyShape(dims, x, row)| == dims[0].value
      && forall k :: 0 <= k < dims[0].value ==> EmptyShape(dims, x, row)[k] == row(Repeat(x, dims[1].value))
    ensures |dims| == 2 && dims[0].None? && dims[1].Some? && dims[1].value >= 0 ==>
      |EmptyShape(dims, x, row)| == dims[1].value && forall k :: 0 <= k < dims[1].value ==> EmptyShape(dims, x, row)[k] == x
    ensures |dims| == 2 && dims[0].Some? && dims[1].None? && dims[0].value >= 0 ==>
      |EmptyShape(dims, x, row)| == dims[0].value && forall k :: 0 <= k < dims[0].value ==> EmptyShape(dims, x, row)[k] == row([])
    ensures |dims| == 2 && dims[0].None? && dims[1].None? ==> EmptyShape(dims, x, row) == []
  {
  }

  /** `type name[...]: dead` with any size given is a `NullPointerError`; without
      sizes the array is stored with no values, as a dead array. */
  lemma DeadArraySized(toks: seq<Lexer.Token>, st: Store, dt: string, name: string, dims: seq<Option<int>>, p: nat)
    requires p <= |toks| && |dims| >= 1 && H.At(toks, p, ":") && H.At(toks, H.PastSpaces(toks, p + 1), "dead")
    ensures Sized(dims) ==> EmptyArrayEnd(toks, st, dt, name, dims, p) == Fail(ParserError, NullPointer)
    ensures !Sized(dims) ==> (EmptyArrayEnd(toks, st, dt, name, dims, p).Ok?
      && EmptyArrayEnd(toks, st, dt, name, dims, p).value.store.arrays[name] == ArrayRec(dims, None, Some(dt), true))
  {
  }

  // ---- array initialisers -----------------------------------------------------------

  /** A level of an initialiser fits the declared dimensions from `depth` on: a sized
      level holds exactly its size; every value is a nested level above the last
      dimension and a literal at the last. */
  ghost predicate Shaped(cells: seq<Cell>, dims: seq<Option<int>>, depth: nat)
    requires depth < |dims|
    decreases |dims| - depth, 2
  {
    (dims[depth].Some? ==> |cells| == dims[depth].value) && ItemsShaped(cells, dims, depth)
  }

  ghost predicate ItemsShaped(cells: seq<Cell>, dims: seq<Option<int>>, depth: nat)
    requires depth < |dims|
    decreases |dims| - depth, 1
  {
    forall k :: 0 <= k < |cells| ==> CellShaped(cells[k], dims, depth)
  }

  ghost predicate CellShaped(c: Cell, dims: seq<Option<int>>, depth: nat)
    requires depth < |dims|
    decreases |dims| - depth, 0
  {
    if depth + 1 < |dims| then c.Row? && Shaped(c.cells, dims, depth + 1)
    else c.Leaf? && Interpreter.IsLiteral(c.node)
  }

  /** `parse_array_values` returns only initialisers of the declared shape. */
  lemma {:induction false} ValuesShaped(toks: seq<Lexer.Token>, st: Store, dims: seq<Option<int>>, depth: nat, p: nat)
    requires p <= |toks| && depth < |dims| && ValuesAt(toks, st, dims, depth, p).Ok?
    ensures Shaped(ValuesAt(toks, st, dims, depth, p).value.cells, dims, depth)
    decreases |toks| - p, 2
  {
    LoopShaped(toks, st, dims, depth, [], [], p);
  }

  lemma {:induction false} LoopShaped(toks: seq<Lexer.Token>, st: Store, dims: seq<Option<int>>, depth: nat,
                                      cells: seq<Cell>, elems: seq<Elem>, p: nat)
    requires p <= |toks| && depth < |dims| && ItemsShaped(cells, dims, depth)
    requires ValuesLoop(toks, st, dims, depth, cells, elems, p).Ok?
    ensures ItemsShaped(ValuesLoop(toks, st, dims, depth, cells, elems, p).value.cells, dims, depth)
    decreases |toks| - p, 1
  {
    if p < |toks| && toks[p].token != "newline" {
      var it := ItemAt(toks, st, dims, depth, p).value;
      var e := SeparatorAt(toks, it.pos).value;
      ItemShaped(toks, st, dims, depth, p);
      var cells' := cells + [it.cell];
      assert ItemsShaped(cells', dims, depth) by {
        forall k | 0 <= k < |cells'| ensures CellShaped(cells'[k], dims, depth) {
          if k < |cells| { assert cells'[k] == cells[k]; }
        }
      }
      if !e.last {
        LoopShaped(toks, st, dims, depth, cells', elems + [it.elem], e.pos);
      }
    }
  }

  lemma {:induction false} ItemShaped(toks: seq<Lexer.Token>, st: Store, dims: seq<Option<int>>, depth: nat, p: nat)
    requires p <= |toks| && depth < |dims| && ItemAt(toks, st, dims, depth, p).Ok?
    ensures CellShaped(ItemAt(toks, st, dims, depth, p).value.cell, dims, depth)
    decreases |toks| - p, 0
  {
    if depth + 1 < |dims| {
      ValuesShaped(toks, st, dims, depth + 1, N.PastWhitespace(toks, p + 1));
    }
  }

  /** An initialiser of an array declared with sizes is stored with the declared
      dimensions, and its values have that shape, literals only. */
  lemma InitialiserShaped(toks: seq<Lexer.Token>, st: Store, name: string, dims: seq<Option<int>>, p: nat)
    requires p <= |toks| && !AllUnsized(dims) && ArrayValues(toks, st, name, dims, p).Ok?
    ensures var s := ArrayValues(toks, st, name, dims, p).value;
      && s.node.ArrayDec? && s.node.dimensions == dims && s.node.elements.SomeCells?
      && Shaped(s.node.elements.cells, dims, 0)
      && s.store.arrays[name].dims == dims
  {
    ValuesShaped(toks, st, dims, 0, p);
  }

  // ---- structs ----------------------------------------------------------------------

  predicate Distinct(xs: seq<string>) {
    forall i, j :: 0 <= i < j < |xs| ==> xs[i] != xs[j]
  }

  /** A struct declaration's field table never holds a name twice: a field whose
      name is already taken is a `FieldError`. */
  lemma {:induction false} FieldsDistinct(toks: seq<Lexer.Token>, st: Store, nodes: seq<Node>, fields: seq<Field>, p: nat)
    requires p <= |toks| && Distinct(FieldNames(fields)) && FieldsLoop(toks, st, nodes, fields, p).Ok?
    ensures Distinct(FieldNames(FieldsLoop(toks, st, nodes, fields, p).value.fields))
    decreases |toks| - p
  {
    if p < |toks| && toks[p].token != "}" {
      var f := FieldAt(toks, st, FieldNames(fields), p).value;
      var fields' := fields + [f.field];
      assert f.field.name !in FieldNames(fields);
      assert Distinct(FieldNames(fields')) by {
        var ns, ns' := FieldNames(fields), FieldNames(fields');
        forall i, j | 0 <= i < j < |ns'| ensures ns'[i] != ns'[j] {
          assert ns'[i] == fields'[i].name;
          if j < |ns| {
            assert ns'[j] == ns[j] && ns'[i] == ns[i];
          } else {
            assert ns'[i] == ns[i];
          }
        }
      }
      FieldsDistinct(toks, st, nodes + [f.node], fields', PastComma(toks, f.pos));
    }
  }

  /** A field named like an earlier one is refused with a `FieldError`. */
  lemma DuplicateFieldRefused(toks: seq<Lexer.Token>, st: Store, seen: seq<string>, p: nat)
    requires p < |toks| && FieldNameAt(toks, p).Ok? && FieldNameAt(toks, p).value.field in seen
    requires FieldValueAt(toks, st, FieldNameAt(toks, p).value.pos).Ok?
    ensures FieldAt(toks, st, seen, p) == Fail(ParserError, DuplicateField(FieldNameAt(toks, p).value.field))
  {
  }

  /** Field `k` of a new instance: the `k`-th value when one was given, otherwise the
      parent's field as declared. */
  function FilledField(fields: seq<Field>, evals: seq<Value>, k: nat): Field
    requires k < |fields|
  {
    if k < |evals| then Field(fields[k].name, fields[k].dtype, evals[k]) else fields[k]
  }

  /** The given values fit the parent's fields from `i` on: each has its field's
      datatype. */
  predicate TypesFit(fields: seq<Field>, evals: seq<Value>, i: nat) {
    forall k :: i <= k < |fields| && k < |evals| ==> TypeNameOf(evals[k]) == Some(fields[k].dtype)
  }

  /** The `for` loop of `create_struct_instance` succeeds exactly when the values fit
      their fields, and appends the filled fields in the parent's order. */
  lemma {:induction false} FillSpec(fields: seq<Field>, nodes: seq<Node>, evals: seq<Value>, i: nat, body: seq<Node>, table: seq<Field>)
    requires |evals| <= |nodes| && i <= |fields|
    ensures Fill(fields, nodes, evals, i, body, table).Ok? <==> TypesFit(fields, evals, i)
    ensures Fill(fields, nodes, evals, i, body, table).Ok? ==>
      var t := Fill(fields, nodes, evals, i, body, table).value.1;
      |t| == |table| + |fields| - i && t[..|table|] == table
      && forall k :: i <= k < |fields| ==> t[|table| + k - i] == FilledField(fields, evals, k)
    decreases |fields| - i
  {
    if i < |fields| {
      var f := fields[i];
      var entry := FilledField(fields, evals, i);
      var table' := table + [entry];
      if i < |evals| && TypeNameOf(evals[i]) != Some(f.dtype) {
        assert !TypesFit(fields, evals, i);
      } else {
        var body' := if i < |evals| then body + [StructFields(PyValue(Comms(f.name)), nodes[i], None)]
                     else body + [StructFields(PyValue(Comms(f.name)), DefaultLiteral(f.value), None)];
        assert Fill(fields, nodes, evals, i, body, table) == Fill(fields, nodes, evals, i + 1, body', table');
        FillSpec(fields, nodes, evals, i + 1, body', table');
        assert TypesFit(fields, evals, i) <==> TypesFit(fields, evals, i + 1);
        if Fill(fields, nodes, evals, i, body, table).Ok? {
          var t := Fill(fields, nodes, evals, i, body, table).value.1;
          assert t[..|table'|] == table';
          assert t[..|table|] == t[..|table'|][..|table|];
          assert t[|table|] == table'[|table|];
        }
      }
    }
  }

  /** `create_struct_instance`: more values than fields is an error; otherwise it
      succeeds exactly when the `i`-th value has the `i`-th field's datatype, and the
      instance holds the given values followed by the parent's remaining defaults. */
  lemma InstanceSpec(st: Store, name: string, parent: string, fields: seq<Field>, nodes: seq<Node>, evals: seq<Value>, e: nat)
    requires |evals| <= |nodes|
    ensures |evals| > |fields| ==>
      Instance(st, name, parent, fields, nodes, evals, e) == Fail(ParserError, TooManyValues(parent, |fields|, |evals|))
    ensures Instance(st, name, parent, fields, nodes, evals, e).Ok? <==> |evals| <= |fields| && TypesFit(fields, evals, 0)
    ensures Instance(st, name, parent, fields, nodes, evals, e).Ok? ==>
      var t := Instance(st, name, parent, fields, nodes, evals, e).value.store.insts[name];
      |t| == |fields| && forall k :: 0 <= k < |fields| ==> t[k] == FilledField(fields, evals, k)
  {
    if |evals| <= |fields| {
      FillSpec(fields, nodes, evals, 0, [], []);
    }
  }

  // ---- declarations and assignments -------------------------------------------------

  /** A single initialisation is an assignment exactly when the name is already in
      the table, and a declaration otherwise; a value of another type than the
      stored one is refused by the table. */
  lemma SingleInit(st: Store, name: string, vt: ValuesTable, e: nat)
    requires name in vt
    ensures var r := InitEnd(st, [name], vt, e);
      && (r.Ok? <==> name !in st.vars || SameType(st.vars[name], vt[name].1))
      && (r.Ok? ==> r.value.store.vars == st.vars[name := vt[name].1])
      && (r.Ok? && name in st.vars ==> r.value.node == VarAssignment(Identifier(name), ":", vt[name].0))
      && (r.Ok? && name !in st.vars ==> r.value.node == VarDec(Identifier(name), vt[name].0))
  {
  }

  /** The `name: value` pairs of a batch all have the type of the first value: a
      value of another type is a `TypeMismatchError`. */
  lemma {:induction false} PairsSameType(toks: seq<Lexer.Token>, st: Store, names: seq<string>, vt: ValuesTable, first: Value, p: nat)
    requires p <= |toks| && (forall n :: n in vt ==> SameType(vt[n].1, first))
    requires PairsLoop(toks, st, names, vt, first, p).Ok?
    ensures var r := PairsLoop(toks, st, names, vt, first, p).value.vt;
      forall n :: n in r ==> SameType(r[n].1, first)
    decreases |toks| - p
  {
    if H.At(toks, p, ",") {
      var x := PairAt(toks, st, first, p).value;
      PairsSameType(toks, st, names + [x.name], vt[x.name := (x.node, x.value)], first, x.pos);
    }
  }

  /** A pair whose value has another type than the first value is refused. */
  lemma PairMismatch(toks: seq<Lexer.Token>, st: Store, first: Value, p: nat)
    requires p < |toks| && NameAfterComma(toks, p).Ok?
    requires ColonValueAt(toks, st, ExpectColon, NameAfterComma(toks, p).value.pos).Ok?
    requires !SameType(ColonValueAt(toks, st, ExpectColon, NameAfterComma(toks, p).value.pos).value.value, first)
    ensures PairAt(toks, st, first, p).Err? && PairAt(toks, st, first, p).exc.kind == SemanticError
  {
  }
}
