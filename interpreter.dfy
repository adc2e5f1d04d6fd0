/** The evaluator of the first front end (ludus/runtime/interpreter.py): literals,
    identifiers read from the flat symbol table, and binary expressions with the
    comms/flag/number mixing rules. Note that its `%` (and every operator other than
    `+ - * /`) computes the quotient `lhs / rhs`. */
module Interpreter {
  import opened Results
  import opened Values
  import opened Nodes
  import SymbolTable

  // The messages of `eval_numeric_binary_expr`, `eval_concat` and `eval_binary_expr`.
  const DivByZero := "ZeroDivisionError: Division by zero is not allowed"
  const ModByZero := "ZeroDivisionError: Modulo by zero is not allowed."
  const CommsOperator := "TypeError: Only valid operator between comms is '+'."
  const MixCommsFlags := "TypeError: Cannot mix comms and flags in an expression."
  const MixCommsNumbers := "TypeError: Cannot mix comms and numeric types in an expression."

  /** `eval_numeric_binary_expr`: only a zero right operand of `/` or of the catch-all
      branch is refused before Python computes the operation. */
  function NumericBinary(lhs: Value, rhs: Value, operator: string): (r: Result<Value>)
    ensures (operator != "+" && operator != "-" && operator != "*") && IsZero(rhs) ==> r.Err? && r.exc.kind == SemanticError
    ensures r.Ok? ==> IsNumber(lhs) && IsNumber(rhs)
  {
    if operator == "+" || operator == "-" || operator == "*" then Arith(operator, lhs, rhs)
    else if operator == "/" then
      if IsZero(rhs) then Fail(SemanticError, DivByZero)
      else TrueDiv(lhs, rhs)
    else
      if IsZero(rhs) then Fail(SemanticError, ModByZero)
      else TrueDiv(lhs, rhs)
  }

  /** `eval_concat`: comms join only under `+`. */
  function Concat(lhs: string, rhs: string, operator: string): (r: Result<Value>)
    ensures r.Ok? <==> operator == "+"
    ensures r.Ok? ==> r.value == Comms(lhs + rhs)
  {
    if operator != "+" then Fail(SemanticError, CommsOperator)
    else Ok(Comms(lhs + rhs))
  }

  /** The type rules of `eval_binary_expr`, applied to evaluated operands. */
  function Binary(lhs: Value, rhs: Value, operator: string): (r: Result<Value>)
    ensures (lhs.Comms? && rhs.Flag?) || (lhs.Flag? && rhs.Comms?) ==> r == Fail(SemanticError, MixCommsFlags)
    ensures lhs.Comms? != rhs.Comms? && !rhs.Flag? && !lhs.Flag? ==> r == Fail(SemanticError, MixCommsNumbers)
  {
    if lhs.Comms? && rhs.Comms? then Concat(lhs.comms, rhs.comms, operator)
    else if (lhs.Comms? && rhs.Flag?) || (lhs.Flag? && rhs.Comms?) then
      Fail(SemanticError, MixCommsFlags)
    else if lhs.Comms? != rhs.Comms? then
      Fail(SemanticError, MixCommsNumbers)
    else NumericBinary(lhs, rhs, operator)
  }

  /** `evaluate(ast_node, symbol_table)`. A plain Python value has no `kind`. */
  function Evaluate(n: Node, table: map<string, Value>): (r: Result<Value>)
    ensures n.Identifier? ==> r == SymbolTable.Get(table, n.symbol)
    ensures !n.PyValue? && !n.BinaryExpr? && !n.Identifier? && !IsLiteral(n) ==> r.Err? && r.exc.kind == SemanticError
  {
    if n.PyValue? then Fail(AttributeError, "object has no attribute 'kind'")
    else if IsLiteral(n) then Ok(LiteralValue(n))
    else if n.BinaryExpr? then
      var lhs :- Evaluate(n.left, table);
      var rhs :- Evaluate(n.right, table);
      Binary(lhs, rhs, n.operator)
    else if n.Identifier? then SymbolTable.Get(table, n.symbol)
    else Fail(SemanticError, "This AST Node has not yet been setup for interpretation.")
  }

  predicate IsLiteral(n: Node) {
    n.HpLiteral? || n.XpLiteral? || n.CommsLiteral? || n.FlagLiteral?
  }

  /** The stored value of a literal node. */
  function LiteralValue(n: Node): Value
    requires IsLiteral(n)
  {
    match n
    case HpLiteral(v) => Hp(v)
    case XpLiteral(v) => Xp(v)
    case CommsLiteral(v) => Comms(v)
    case FlagLiteral(v) => Flag(v)
  }

  // ---- a static reading of the same rules -------------------------------------

  /** The type an expression has, computed from the types alone: the reference the
      evaluator is checked against. Flags count as hp in arithmetic; `/` and the
      catch-all operators give xp. */
  function TypeOf(n: Node, env: map<string, Value>): Option<string> {
    if IsLiteral(n) then Some(TypeName(LiteralValue(n)))
    else if n.Identifier? then (if n.symbol in env then Some(TypeName(env[n.symbol])) else None)
    else if n.BinaryExpr? then
      var tl := TypeOf(n.left, env);
      var tr := TypeOf(n.right, env);
      if tl.None? || tr.None? then None
      else ResultType(tl.value, tr.value, n.operator)
    else None
  }

  function ResultType(tl: string, tr: string, op: string): Option<string> {
    if tl == "comms" && tr == "comms" then (if op == "+" then Some("comms") else None)
    else if !IsNumericType(tl) || !IsNumericType(tr) then None
    else if op == "+" || op == "-" || op == "*" then
      Some(if tl != "xp" && tr != "xp" then "hp" else "xp")
    else Some("xp")
  }

  predicate IsNumericType(t: string) { t == "hp" || t == "xp" || t == "flag" }

  /** Every value the evaluator produces has the type the static rules predict, and
      literals evaluate to their stored value. */
  lemma {:induction false} EvaluateHasStaticType(n: Node, table: map<string, Value>)
    requires Evaluate(n, table).Ok?
    ensures TypeOf(n, table) == Some(TypeName(Evaluate(n, table).value))
    ensures IsLiteral(n) ==> Evaluate(n, table).value == LiteralValue(n)
    decreases n
  {
    if n.BinaryExpr? {
      EvaluateHasStaticType(n.left, table);
      EvaluateHasStaticType(n.right, table);
      var lhs, rhs := Evaluate(n.left, table).value, Evaluate(n.right, table).value;
      BinaryType(lhs, rhs, n.operator);
    }
  }

  lemma BinaryType(lhs: Value, rhs: Value, op: string)
    requires Binary(lhs, rhs, op).Ok?
    ensures ResultType(TypeName(lhs), TypeName(rhs), op) == Some(TypeName(Binary(lhs, rhs, op).value))
  {
    if lhs.Comms? && rhs.Comms? {
    } else {
      assert IsNumber(lhs) && IsNumber(rhs);
    }
  }

  /** The `%` of this evaluator is the quotient: for a non-zero right operand it
      gives exactly what `/` gives. */
  lemma ModIsQuotient(l: Node, rt: Node, table: map<string, Value>)
    requires Evaluate(rt, table).Ok? && !IsZero(Evaluate(rt, table).value)
    ensures Evaluate(BinaryExpr(l, "%", rt), table) == Evaluate(BinaryExpr(l, "/", rt), table)
  {
  }

  /** A zero right operand of `/` or `%` is always a semantic error, whatever the
      left operand (`None` included). */
  lemma ZeroDivisorFirst(lhs: Value, rhs: Value, op: string)
    requires IsZero(rhs) && (op == "/" || op == "%")
    ensures Binary(lhs, rhs, op).Err? && Binary(lhs, rhs, op).exc.kind == SemanticError
  {
    if lhs.Comms? {
      assert !rhs.Comms?;
    } else {
      assert Binary(lhs, rhs, op) == NumericBinary(lhs, rhs, op);
      if op == "/" {
        assert NumericBinary(lhs, rhs, op) == Fail(SemanticError, DivByZero);
      } else {
        assert NumericBinary(lhs, rhs, op) == Fail(SemanticError, ModByZero);
      }
    }
  }
}
