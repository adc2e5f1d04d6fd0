/** The evaluator used by the semantic visitor (ludus/runtime/new_interpreter.py).
    It reads identifiers through the table's `lookup`, which is a parameter here
    (the visitor's table and the plain `new_symboltable` table both supply one).
    Node kinds it does not list fall off the end of `evaluate` and give `None`. Every
    error is a bare `Exception`; a Python `TypeError` in the arithmetic is re-raised
    as the "'dead' types" message. */
module NewInterpreter {
  import opened Results
  import opened Values
  import opened Nodes
  import NewSymbolTable

  type Bound = NewSymbolTable.Bound

  const DivByZero := "ZeroDivisionError: Division by zero is not allowed"
  const ModByZero := "ZeroDivisionError: Modulo by zero is not allowed."
  const CommsOperator := "TypeError: Only valid operator between comms is '+'."
  const MixCommsFlags := "TypeError: Cannot mix comms and flags in an expression."
  const MixCommsNumbers := "TypeError: Cannot mix comms and numeric types in an expression."
  const DeadOperand := "TypeError: 'dead' types cannot be used as an operand."

  predicate IsComms(b: Bound) { b.Val? && b.v.Comms? }
  predicate IsFlag(b: Bound) { b.Val? && b.v.Flag? }

  /** Python `rhs == 0` on anything bound: only the zero numbers (and `False`). */
  predicate IsZeroBound(b: Bound) { b.Val? && IsZero(b.v) }

  /** Numbers, as Python's operators accept them. */
  predicate IsNumberBound(b: Bound) { b.Val? && IsNumber(b.v) }

  /** `eval_numeric_binary_expr`. The zero checks come before the operation, so
      a zero divisor is reported even when the left operand is `None`. */
  function NumericBinary(lhs: Bound, rhs: Bound, operator: string): (r: Result<Bound>)
    ensures r.Err? ==> r.exc.kind == PlainException
    ensures r.Ok? ==> IsNumberBound(lhs) && IsNumberBound(rhs) && IsNumberBound(r.value)
    ensures r.Err? && !IsZeroBound(rhs) ==> r.exc.msg == DeadOperand
  {
    if (operator == "/" || (operator != "+" && operator != "-" && operator != "*")) && IsZeroBound(rhs) then
      if operator == "/" then Fail(PlainException, DivByZero)
      else Fail(PlainException, ModByZero)
    else if !IsNumberBound(lhs) || !IsNumberBound(rhs) then
      Fail(PlainException, DeadOperand)
    else
      var a, b := lhs.v, rhs.v;
      var r := if operator == "+" || operator == "-" || operator == "*" then Arith(operator, a, b)
               else if operator == "/" then TrueDiv(a, b)
               else Mod(a, b);
      Ok(NewSymbolTable.Val(r.value))
  }

  /** `eval_binary_expr` on evaluated operands. */
  function Binary(lhs: Bound, rhs: Bound, operator: string): (r: Result<Bound>)
    ensures r.Err? ==> r.exc.kind == PlainException
    ensures IsComms(lhs) && IsComms(rhs) ==> (r.Ok? <==> operator == "+")
    ensures r.Ok? && IsComms(lhs) && IsComms(rhs) ==> r.value == NewSymbolTable.Val(Comms(lhs.v.comms + rhs.v.comms))
    ensures IsComms(lhs) != IsComms(rhs) ==> r.Err?
  {
    if IsComms(lhs) && IsComms(rhs) then
      if operator != "+" then Fail(PlainException, CommsOperator)
      else Ok(NewSymbolTable.Val(Comms(lhs.v.comms + rhs.v.comms)))
    else if (IsComms(lhs) && IsFlag(rhs)) || (IsFlag(lhs) && IsComms(rhs)) then
      Fail(PlainException, MixCommsFlags)
    else if IsComms(lhs) != IsComms(rhs) then
      Fail(PlainException, MixCommsNumbers)
    else NumericBinary(lhs, rhs, operator)
  }

  predicate IsLiteral(n: Node) {
    n.HpLiteral? || n.XpLiteral? || n.CommsLiteral? || n.FlagLiteral?
  }

  function LiteralValue(n: Node): Value
    requires IsLiteral(n)
  {
    if n.HpLiteral? then Hp(n.hp) else if n.XpLiteral? then Xp(n.xp)
    else if n.CommsLiteral? then Comms(n.comms) else Flag(n.flag)
  }

  /** `evaluate(ast_node, symbol_table)`, with the table's `lookup` as a parameter. */
  function Evaluate(n: Node, lookup: string -> Result<Bound>): (r: Result<Bound>)
    ensures n.Identifier? && lookup(n.symbol).Ok? && lookup(n.symbol).value != NewSymbolTable.Val(Dead) ==> r == lookup(n.symbol)
    ensures IsStmt(n) && !IsLiteral(n) && !n.BinaryExpr? && !n.Identifier? ==> r == Ok(NewSymbolTable.Val(Dead))
    ensures r.Err? && !n.PyValue? && !n.Identifier? ==> r.exc.kind == PlainException || n.BinaryExpr?
  {
    if n.PyValue? then Fail(AttributeError, "object has no attribute 'kind'")
    else if IsLiteral(n) then Ok(NewSymbolTable.Val(LiteralValue(n)))
    else if n.BinaryExpr? then
      var lhs :- Evaluate(n.left, lookup);
      var rhs :- Evaluate(n.right, lookup);
      Binary(lhs, rhs, n.operator)
    else if n.Identifier? then
      var value :- lookup(n.symbol);
      if value == NewSymbolTable.Val(Dead) then Fail(PlainException, "Variable '" + n.symbol + "' is not defined.")
      else Ok(value)
    else Ok(NewSymbolTable.Val(Dead))
  }

  // ---- a static reading of the same rules -------------------------------------

  /** The type an expression has, from the types alone. Here `%` and the other
      catch-all operators keep hp when both sides are hp or flags. */
  function TypeOf(n: Node, env: string -> Option<string>): Option<string> {
    if IsLiteral(n) then Some(TypeName(LiteralValue(n)))
    else if n.Identifier? then env(n.symbol)
    else if n.BinaryExpr? then
      var tl := TypeOf(n.left, env);
      var tr := TypeOf(n.right, env);
      if tl.None? || tr.None? then None else ResultType(tl.value, tr.value, n.operator)
    else None
  }

  function ResultType(tl: string, tr: string, op: string): Option<string> {
    if tl == "comms" && tr == "comms" then (if op == "+" then Some("comms") else None)
    else if !IsNumericType(tl) || !IsNumericType(tr) then None
    else if op == "/" then Some("xp")
    else Some(if tl != "xp" && tr != "xp" then "hp" else "xp")
  }

  predicate IsNumericType(t: string) { t == "hp" || t == "xp" || t == "flag" }

  /** The type names of what `lookup` returns, as the static rules see them. */
  function EnvOf(lookup: string -> Result<Bound>): string -> Option<string> {
    name => if lookup(name).Ok? && lookup(name).value.Val? then Some(TypeName(lookup(name).value.v)) else None
  }

  /** Every successful evaluation of a literal, identifier or binary expression yields
      a runtime value of the type the static rules predict. */
  lemma {:induction false} EvaluateHasStaticType(n: Node, lookup: string -> Result<Bound>)
    requires Evaluate(n, lookup).Ok? && (IsLiteral(n) || n.Identifier? || n.BinaryExpr?)
    requires Evaluate(n, lookup).value.Val?
    ensures TypeOf(n, EnvOf(lookup)) == Some(TypeName(Evaluate(n, lookup).value.v))
    decreases n
  {
    if n.BinaryExpr? {
      var lhs, rhs := Evaluate(n.left, lookup).value, Evaluate(n.right, lookup).value;
      assert IsNumberBound(lhs) || IsComms(lhs);
      assert lhs.Val? && rhs.Val?;
      OperandKinds(n.left, lookup);
      OperandKinds(n.right, lookup);
      EvaluateHasStaticType(n.left, lookup);
      EvaluateHasStaticType(n.right, lookup);
      BinaryType(lhs, rhs, n.operator);
    }
  }

  /** An operand that takes part in successful arithmetic came from a literal, an
      identifier or a nested binary expression: the fall-through `None` of other
      kinds never survives an operator. */
  lemma OperandKinds(n: Node, lookup: string -> Result<Bound>)
    requires Evaluate(n, lookup).Ok? && Evaluate(n, lookup).value.Val? && Evaluate(n, lookup).value.v != Dead
    ensures IsLiteral(n) || n.Identifier? || n.BinaryExpr?
  {
  }

  lemma BinaryType(lhs: Bound, rhs: Bound, op: string)
    requires lhs.Val? && rhs.Val? && Binary(lhs, rhs, op).Ok?
    ensures Binary(lhs, rhs, op).value.Val?
    ensures ResultType(TypeName(lhs.v), TypeName(rhs.v), op) == Some(TypeName(Binary(lhs, rhs, op).value.v))
  {
  }

  /** `%` is Python's remainder here: for int-like operands and a non-zero right
      operand it satisfies `lhs == rhs * (lhs // rhs) + result`. */
  lemma ModIsRemainder(a: int, b: int, lookup: string -> Result<Bound>)
    requires b != 0
    ensures var r := Evaluate(BinaryExpr(HpLiteral(a), "%", HpLiteral(b)), lookup);
      r == Ok(NewSymbolTable.Val(Hp(FloorMod(a, b)))) && a == b * FloorDiv(a, b) + r.value.v.hp
  {
  }

  /** `None` (or any non-number) in arithmetic is reported with the 'dead' message. */
  lemma DeadOperandMessage(lhs: Bound, rhs: Bound, op: string)
    requires !IsComms(lhs) && !IsComms(rhs) && !IsZeroBound(rhs)
    requires !IsNumberBound(lhs) || !IsNumberBound(rhs)
    ensures Binary(lhs, rhs, op) == Fail(PlainException, DeadOperand)
  {
  }
}
