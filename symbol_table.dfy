/** The flat symbol table of the first front end (ludus/runtime/symbol_table.py):
    a dictionary from names to values whose redefinition must keep the Python type. */
module SymbolTable {
  import opened Results
  import opened Values

  /** `define_variable` on a table value: a fresh name is bound; an existing one is
      overwritten when the new value has the same Python type, and otherwise the
      table is refused with a type-mismatch error. */
  function Define(table: map<string, Value>, name: string, value: Value): (r: Result<map<string, Value>>)
    ensures r.Ok? <==> name !in table || SameType(table[name], value)
    ensures r.Err? ==> r.exc.kind == SymbolTableError
  {
    if name in table && !SameType(table[name], value) then
      Fail(SymbolTableError, "TypeMismatchError: Type mismatch for variable '" + name + "'. Expected '"
        + TypeName(table[name]) + "', got '" + TypeName(value) + "'.")
    else
      Ok(table[name := value])
  }

  /** `get_variable`: the bound value, or a `NameError` message. */
  function Get(table: map<string, Value>, name: string): (r: Result<Value>)
    ensures r.Ok? <==> name in table
    ensures r.Ok? ==> r.value == table[name]
    ensures r.Err? ==> r.exc.kind == SymbolTableError
  {
    if name in table then Ok(table[name])
    else Fail(SymbolTableError, "NameError: Variable '" + name + "' is not defined.")
  }

  /** A name's type never changes: after any successful definition every name that
      was bound before still holds a value of its old type. */
  predicate TypesKept(before: map<string, Value>, after: map<string, Value>) {
    forall n :: n in before ==> n in after && SameType(before[n], after[n])
  }

  /** Defining reads back: the name now holds the value, and every other name keeps
      its binding (or stays unbound). */
  lemma DefineThenGet(table: map<string, Value>, name: string, value: Value, other: string)
    requires Define(table, name, value).Ok?
    ensures Get(Define(table, name, value).value, name) == Ok(value)
    ensures other != name ==> Get(Define(table, name, value).value, other) == Get(table, other)
  {
  }

  /** Successful definitions keep every name's type. */
  lemma DefineKeepsTypes(table: map<string, Value>, name: string, value: Value)
    requires Define(table, name, value).Ok?
    ensures TypesKept(table, Define(table, name, value).value)
  {
    var after := Define(table, name, value).value;
    forall n | n in table ensures n in after && SameType(table[n], after[n]) {
      if n == name {
        assert after[n] == value;
      } else {
        assert after[n] == table[n];
      }
    }
  }

  /** `TypesKept` composes, so a whole run of definitions keeps every type. */
  lemma TypesKeptTransitive(a: map<string, Value>, b: map<string, Value>, c: map<string, Value>)
    requires TypesKept(a, b) && TypesKept(b, c)
    ensures TypesKept(a, c)
  {
    forall n | n in a ensures n in c && SameType(a[n], c[n]) {
      assert SameType(a[n], b[n]) && SameType(b[n], c[n]);
    }
  }

  /** `SymbolTable` with its `table` dictionary. */
  class Table {
    var table: map<string, Value>

    constructor ()
      ensures table == map[]
    {
      table := map[];
    }

    /** `define_variable`: on a type mismatch the table is left unchanged. */
    method DefineVariable(name: string, value: Value) returns (r: Result<()>)
      modifies this
      ensures Define(old(table), name, value).Ok? ==> r.Ok? && table == Define(old(table), name, value).value
      ensures Define(old(table), name, value).Err? ==> r == Err(Define(old(table), name, value).exc) && table == old(table)
    {
      if name in table {
        var expected := table[name];
        if !SameType(expected, value) {
          return Fail(SymbolTableError, "TypeMismatchError: Type mismatch for variable '" + name + "'. Expected '"
            + TypeName(expected) + "', got '" + TypeName(value) + "'.");
        }
      }
      table := table[name := value];
      return Ok(());
    }

    /** `get_variable`. */
    function GetVariable(name: string): (r: Result<Value>)
      reads this
      ensures r.Ok? <==> name in table
      ensures r.Ok? ==> r.value == table[name]
    {
      Get(table, name)
    }
  }
}
