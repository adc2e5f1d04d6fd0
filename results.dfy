/** Option and Result, and the exception classes that end an analysis step of the
    Ludus toolchain. A Python `raise` becomes an `Err`; a call that would fault in
    Python (a missing attribute, a bad index, a missing dictionary key) becomes an
    `Err` whose kind names the Python built-in exception. */
module Results {

  datatype Option<+T> = None | Some(value: T)

  /** The exception classes the toolchain raises or runs into. */
  datatype ExcKind =
    | SemanticError       // ast.py / interpreter.py / error.py SemanticError
    | ParserError         // ast.py ParserError
    | SymbolTableError    // symbol_table.py SymbolTableError
    | PlainException      // a bare `Exception(...)`
    | SyntaxError         // parser.py
    | TypeError
    | AttributeError
    | IndexError
    | KeyError
    | ZeroDivisionError
    | ValueError
    | RecursionError      // Python's recursion limit, reached by unbounded recursion
    | UnboundLocalError   // a local variable read before any assignment
    | Unfinished          // a loop still running when the model's iteration bound ran out

  datatype Exc = Exc(kind: ExcKind, msg: string)

  datatype Result<+T> = Ok(value: T) | Err(exc: Exc) {
    predicate IsFailure() { Err? }

    function PropagateFailure<U>(): Result<U>
      requires Err?
    {
      Err(exc)
    }

    function Extract(): T
      requires Ok?
    {
      value
    }
  }

  function Fail<T>(kind: ExcKind, msg: string): Result<T> {
    Err(Exc(kind, msg))
  }
}
