/** The table-driven LL(1) driver of ludus/parser.py: a stack of grammar symbols
    that starts as the start symbol, a pointer into the input, and the parse table
    that `gen_parse_table` builds (Cfg.ParseTable). The Python loop runs until the
    stack is empty, which need not happen on a left-recursive table; here it is
    given a bound on the number of iterations, `fuel`. */
module Parser {
  import opened Results
  import Decimal
  import Cfg

  type Symbol = Cfg.Symbol
  type Production = Cfg.Production

  /** What one call of `parser` ends with. */
  datatype Outcome =
    | Accepted            // the final check passed
    | Rejected(exc: Exc)  // a `SyntaxError`, or a fault while indexing the input
    | Exhausted           // the loop had not finished after `fuel` iterations

  /** The loop's state: the stack (its top is the last element) and the pointer. */
  datatype Config = Config(stack: seq<Symbol>, pointer: nat)

  datatype StepResult = Next(c: Config) | Stop(exc: Exc)

  /** What an expansion pushes: nothing for a production that contains `"λ"`. */
  function Body(p: Production): (b: Production)
    ensures b == [] || b == p
    ensures Cfg.LAMBDA !in b
  {
    if Cfg.LAMBDA in p then [] else p
  }

  function Reverse(s: seq<Symbol>): (r: seq<Symbol>)
    ensures |r| == |s|
  {
    if s == [] then [] else Reverse(s[1..]) + [s[0]]
  }

  lemma {:induction false} ReverseAppend(x: seq<Symbol>, y: seq<Symbol>)
    ensures Reverse(x + y) == Reverse(y) + Reverse(x)
  {
    if x == [] {
      assert x + y == y;
    } else {
      assert (x + y)[1..] == x[1..] + y;
      ReverseAppend(x[1..], y);
    }
  }

  lemma {:induction false} ReverseReverse(s: seq<Symbol>)
    ensures Reverse(Reverse(s)) == s
  {
    if s != [] {
      ReverseReverse(s[1..]);
      ReverseAppend(Reverse(s[1..]), [s[0]]);
      assert Reverse([s[0]]) == [s[0]];
      assert s == [s[0]] + s[1..];
    }
  }

  function UnexpectedToken(current: Symbol, pointer: nat): Exc {
    Exc(SyntaxError, "Unexpected token '" + current + "' at " + Decimal.NatToString(pointer))
  }

  const NotConsumed: string := "Input not fully consumed."

  /** One iteration of `while stack`: pop the top, then match it against the
      current input, expand it through the table, or raise. */
  function Step(table: Cfg.ParseTable, buffer: seq<Symbol>, c: Config): StepResult
    requires c.stack != []
  {
    var top := c.stack[|c.stack| - 1];
    var rest := c.stack[..|c.stack| - 1];
    if c.pointer >= |buffer| then
      Stop(Exc(IndexError, "list index out of range"))
    else
      var current := buffer[c.pointer];
      if top == current then
        Next(Config(rest, c.pointer + 1))
      else if top in table && current in table[top] then
        Next(Config(rest + Reverse(Body(table[top][current])), c.pointer))
      else
        Stop(UnexpectedToken(current, c.pointer))
  }

  /** The check after the loop. */
  function Finish(buffer: seq<Symbol>, pointer: nat): Outcome {
    if pointer == |buffer| - 1 then Accepted else Rejected(Exc(SyntaxError, NotConsumed))
  }

  /** At most `fuel` further iterations of the loop from `c`. */
  function Run(table: Cfg.ParseTable, buffer: seq<Symbol>, c: Config, fuel: nat): Outcome
    decreases fuel
  {
    if c.stack == [] then Finish(buffer, c.pointer)
    else if fuel == 0 then Exhausted
    else
      match Step(table, buffer, c)
      case Stop(e) => Rejected(e)
      case Next(c') => Run(table, buffer, c', fuel - 1)
  }

  /** The initial state: the stack holds only the start symbol. */
  function Start(start: Symbol): Config {
    Config([start], 0)
  }

  /** `parser(parse_table, start_symbol, input_buffer)`. `buffer` is the caller's
      list afterwards: `"$"` has been appended to it. The loop pops the stack and
      extends it with the reversed production, as the Python code does. */
  method ParseInput(table: Cfg.ParseTable, start: Symbol, input: seq<Symbol>, fuel: nat)
    returns (buffer: seq<Symbol>, r: Outcome)
    ensures buffer == input + [Cfg.END]
    ensures r == Run(table, buffer, Start(start), fuel)
  {
    buffer := input + [Cfg.END];
    var stack := [start];
    var pointer := 0;
    var steps := 0;
    while stack != [] && steps < fuel
      invariant steps <= fuel
      invariant Run(table, buffer, Config(stack, pointer), fuel - steps) == Run(table, buffer, Start(start), fuel)
      decreases fuel - steps
    {
      ghost var c0 := Config(stack, pointer);
      var top := stack[|stack| - 1];
      stack := stack[..|stack| - 1];
      if pointer >= |buffer| {
        return buffer, Rejected(Exc(IndexError, "list index out of range"));
      }
      var current := buffer[pointer];
      if top == current {
        pointer := pointer + 1;
      } else if top in table {
        if current in table[top] {
          var production := table[top][current];
          if Cfg.LAMBDA !in production {
            stack := stack + Reverse(production);
          }
        } else {
          return buffer, Rejected(UnexpectedToken(current, pointer));
        }
      } else {
        return buffer, Rejected(UnexpectedToken(current, pointer));
      }
      assert Step(table, buffer, c0) == Next(Config(stack, pointer));
      steps := steps + 1;
    }
    if stack != [] {
      return buffer, Exhausted;
    }
    r := Finish(buffer, pointer);
  }

  // ---- what one iteration does -------------------------------------------------

  /** A popped top equal to the current input is matched: the pointer moves by
      exactly one and nothing is pushed. */
  lemma StepMatch(table: Cfg.ParseTable, buffer: seq<Symbol>, c: Config)
    requires c.stack != [] && c.pointer < |buffer| && c.stack[|c.stack| - 1] == buffer[c.pointer]
    ensures Step(table, buffer, c) == Next(Config(c.stack[..|c.stack| - 1], c.pointer + 1))
  {
  }

  /** A nonterminal with a table entry is replaced by its production, pushed in
      reverse so that the production's leftmost symbol ends on top; a production
      that contains `"λ"` pushes nothing. The pointer does not move. */
  lemma StepExpand(table: Cfg.ParseTable, buffer: seq<Symbol>, c: Config, p: Production)
    requires c.stack != [] && c.pointer < |buffer|
    requires c.stack[|c.stack| - 1] != buffer[c.pointer]
    requires c.stack[|c.stack| - 1] in table && buffer[c.pointer] in table[c.stack[|c.stack| - 1]]
    requires p == table[c.stack[|c.stack| - 1]][buffer[c.pointer]]
    ensures Step(table, buffer, c).Next? && Step(table, buffer, c).c.pointer == c.pointer
    ensures Cfg.LAMBDA in p ==> Step(table, buffer, c).c.stack == c.stack[..|c.stack| - 1]
    ensures Cfg.LAMBDA !in p && p != [] ==> Step(table, buffer, c).c.stack[|Step(table, buffer, c).c.stack| - 1] == p[0]
    ensures Cfg.LAMBDA !in p ==> Reverse(Step(table, buffer, c).c.stack) == p + Reverse(c.stack[..|c.stack| - 1])
  {
    var rest := c.stack[..|c.stack| - 1];
    if Cfg.LAMBDA !in p {
      var s := rest + Reverse(p);
      ReverseAppend(rest, Reverse(p));
      ReverseReverse(p);
      if p != [] {
        ReverseLast(p);
      }
    }
  }

  lemma ReverseLast(p: seq<Symbol>)
    requires p != []
    ensures Reverse(p)[|p| - 1] == p[0]
  {
  }

  /** Without a table entry for the top, or with a terminal on top that differs
      from the input, the loop raises a `SyntaxError` naming the token and the
      pointer. */
  lemma StepReject(table: Cfg.ParseTable, buffer: seq<Symbol>, c: Config)
    requires c.stack != [] && c.pointer < |buffer|
    requires c.stack[|c.stack| - 1] != buffer[c.pointer]
    requires !(c.stack[|c.stack| - 1] in table && buffer[c.pointer] in table[c.stack[|c.stack| - 1]])
    ensures Step(table, buffer, c) == Stop(UnexpectedToken(buffer[c.pointer], c.pointer))
  {
  }

  // ---- what acceptance means ---------------------------------------------------

  /** One expansion at position `k` of a sentential form, by an entry of the table. */
  ghost predicate Expands(table: Cfg.ParseTable, u: seq<Symbol>, v: seq<Symbol>, k: nat) {
    && k < |u|
    && u[k] in table
    && exists t :: t in table[u[k]] && v == u[..k] + Body(table[u[k]][t]) + u[k + 1..]
  }

  /** `trace` is a derivation from `trace[0]` to its last element, each form
      obtained from the one before by expanding one nonterminal. */
  ghost predicate IsDerivation(table: Cfg.ParseTable, trace: seq<seq<Symbol>>) {
    && trace != []
    && forall i :: 0 <= i < |trace| - 1 ==> StepAt(table, trace, i)
  }

  ghost predicate StepAt(table: Cfg.ParseTable, trace: seq<seq<Symbol>>, i: nat)
    requires i < |trace| - 1
  {
    exists k: nat {:trigger Expands(table, trace[i], trace[i + 1], k)} :: Expands(table, trace[i], trace[i + 1], k)
  }

  ghost predicate Derives(table: Cfg.ParseTable, from: seq<Symbol>, to: seq<Symbol>) {
    exists trace :: IsDerivation(table, trace) && trace[0] == from && trace[|trace| - 1] == to
  }

  /** The sentential form a state stands for: the matched input, then the stack
      read from the top down. */
  function Form(buffer: seq<Symbol>, c: Config): seq<Symbol>
    requires c.pointer <= |buffer|
  {
    buffer[..c.pointer] + Reverse(c.stack)
  }

  lemma DerivesExtend(table: Cfg.ParseTable, from: seq<Symbol>, mid: seq<Symbol>, to: seq<Symbol>, k: nat)
    requires Derives(table, from, mid) && Expands(table, mid, to, k)
    ensures Derives(table, from, to)
  {
    var trace :| IsDerivation(table, trace) && trace[0] == from && trace[|trace| - 1] == mid;
    var trace' := trace + [to];
    forall i | 0 <= i < |trace'| - 1 ensures StepAt(table, trace', i) {
      if i < |trace| - 1 {
        assert trace'[i] == trace[i] && trace'[i + 1] == trace[i + 1];
        assert StepAt(table, trace, i);
      } else {
        assert trace'[i] == mid && trace'[i + 1] == to;
        assert Expands(table, trace'[i], trace'[i + 1], k);
      }
    }
    assert IsDerivation(table, trace');
  }

  /** A step keeps the state's form derivable from the start: a match leaves the
      form as it is, an expansion is one derivation step at the pointer. */
  lemma StepDerives(table: Cfg.ParseTable, buffer: seq<Symbol>, from: seq<Symbol>, c: Config)
    requires c.stack != [] && c.pointer <= |buffer|
    requires Derives(table, from, Form(buffer, c))
    requires Step(table, buffer, c).Next?
    ensures Step(table, buffer, c).c.pointer <= |buffer|
    ensures Derives(table, from, Form(buffer, Step(table, buffer, c).c))
  {
    var top := c.stack[|c.stack| - 1];
    var rest := c.stack[..|c.stack| - 1];
    var current := buffer[c.pointer];
    assert c.stack == rest + [top];
    ReverseAppend(rest, [top]);
    assert Reverse([top]) == [top];
    assert Form(buffer, c) == buffer[..c.pointer] + [top] + Reverse(rest);
    var c' := Step(table, buffer, c).c;
    if top == current {
      assert buffer[..c.pointer + 1] == buffer[..c.pointer] + [top];
      assert Form(buffer, c') == Form(buffer, c);
    } else {
      var b := Body(table[top][current]);
      ReverseAppend(rest, Reverse(b));
      ReverseReverse(b);
      var u := Form(buffer, c);
      assert Form(buffer, c') == buffer[..c.pointer] + b + Reverse(rest);
      assert u[..c.pointer] == buffer[..c.pointer];
      assert u[c.pointer] == top;
      assert u[c.pointer + 1..] == Reverse(rest);
      assert Expands(table, u, Form(buffer, c'), c.pointer);
      DerivesExtend(table, from, u, Form(buffer, c'), c.pointer);
    }
  }

  lemma {:induction false} RunDerives(table: Cfg.ParseTable, buffer: seq<Symbol>, from: seq<Symbol>, c: Config, fuel: nat)
    requires c.pointer <= |buffer|
    requires Derives(table, from, Form(buffer, c))
    requires Run(table, buffer, c, fuel) == Accepted
    ensures Derives(table, from, buffer[..|buffer| - 1])
    decreases fuel
  {
    if c.stack == [] {
      assert Form(buffer, c) == buffer[..|buffer| - 1];
    } else {
      StepDerives(table, buffer, from, c);
      RunDerives(table, buffer, from, Step(table, buffer, c).c, fuel - 1);
    }
  }

  /** The parser is sound: when it accepts, the input (without the appended `"$"`)
      is derivable from the start symbol through the table's productions. */
  lemma AcceptedDerives(table: Cfg.ParseTable, start: Symbol, input: seq<Symbol>, fuel: nat)
    requires Run(table, input + [Cfg.END], Start(start), fuel) == Accepted
    ensures Derives(table, [start], input)
  {
    var buffer := input + [Cfg.END];
    var trace := [[start]];
    assert IsDerivation(table, trace);
    assert Form(buffer, Start(start)) == [start];
    RunDerives(table, buffer, [start], Start(start), fuel);
    assert buffer[..|buffer| - 1] == input;
  }
}
