/** The table of the semantic visitor (ludus/runtime/new_symboltable.py): a
    dictionary that binds anything, and a lookup that refuses missing names, `None`
    and expressions that were stored unevaluated. */
module NewSymbolTable {
  import opened Results
  import opened Values
  import Nodes

  /** What a name can be bound to: a runtime value (`Val(Dead)` is `None`), a syntax
      node stored unevaluated, the field dictionary of a struct declaration (its
      entries in insertion order), or another Python object that is neither a value
      nor a node (a record dictionary or a list, named by its class). */
  datatype Bound =
    | Val(v: Value)
    | Tree(node: Nodes.Node)
    | FieldDict(fields: seq<FieldInfo>)
    | Opaque(what: string)

  /** One entry `name: {"value": value, "datatype": dtype}` of a field dictionary. */
  datatype FieldInfo = FieldInfo(name: string, value: Bound, dtype: Option<string>)

  /** Python `value is None or isinstance(value, Expr)`. */
  predicate Unusable(b: Bound) {
    b == Val(Dead) || (b.Tree? && Nodes.IsExpr(b.node))
  }

  /** `lookup` on a table value. */
  function Lookup(symbols: map<string, Bound>, name: string): (r: Result<Bound>)
    ensures r.Ok? <==> name in symbols && !Unusable(symbols[name])
    ensures r.Ok? ==> r.value == symbols[name]
    ensures r.Err? ==> r.exc.kind == PlainException
  {
    if name !in symbols || Unusable(symbols[name]) then
      Fail(PlainException, "Variable '" + name + "' is not defined before use.")
    else
      Ok(symbols[name])
  }

  /** Defining one name leaves every other name's lookup as it was. */
  lemma DefineIsolated(symbols: map<string, Bound>, name: string, b: Bound, other: string)
    requires other != name
    ensures Lookup(symbols[name := b], other) == Lookup(symbols, other)
  {
  }

  /** A defined value can be read back unless it is `None` or an unevaluated expression. */
  lemma DefineThenLookup(symbols: map<string, Bound>, name: string, b: Bound)
    ensures Lookup(symbols[name := b], name).Ok? <==> !Unusable(b)
    ensures Lookup(symbols[name := b], name).Ok? ==> Lookup(symbols[name := b], name).value == b
  {
  }

  /** `SymbolTable` with its `symbols` dictionary. */
  class Table {
    var symbols: map<string, Bound>

    constructor ()
      ensures symbols == map[]
    {
      symbols := map[];
    }

    /** `define`: binds or overwrites, whatever was there. */
    method Define(name: string, b: Bound)
      modifies this
      ensures symbols == old(symbols)[name := b]
    {
      symbols := symbols[name := b];
    }

    /** `lookup`. */
    function LookupName(name: string): (r: Result<Bound>)
      reads this
      ensures r.Ok? <==> name in symbols && !Unusable(symbols[name])
      ensures r.Ok? ==> r.value == symbols[name]
    {
      Lookup(symbols, name)
    }
  }
}
