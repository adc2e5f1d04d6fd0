/** Runtime values of Ludus as the Python toolchain represents them, and the Python
    arithmetic the evaluators and the semantic analyser apply to them.

    hp is a Python `int`, xp a Python `float` (modelled as an exact `real`; rounding
    is not modelled), comms a `str`, flag a `bool` and dead is `None`. Python treats
    `bool` as an `int` in arithmetic (`True + 1 == 2`), so the numeric operations
    below accept flags as 1 and 0. */
module Values {
  import opened Results

  datatype Value = Hp(hp: int) | Xp(xp: real) | Comms(comms: string) | Flag(flag: bool) | Dead

  /** `TYPE_MAP.get(type(v), str(type(v)))`: the Ludus name of a value's type. */
  function TypeName(v: Value): string {
    match v
    case Hp(_) => "hp"
    case Xp(_) => "xp"
    case Comms(_) => "comms"
    case Flag(_) => "flag"
    case Dead => "<class 'NoneType'>"
  }

  /** `type(a) == type(b)`. */
  predicate SameType(a: Value, b: Value) {
    (a.Hp? && b.Hp?) || (a.Xp? && b.Xp?) || (a.Comms? && b.Comms?) || (a.Flag? && b.Flag?) || (a.Dead? && b.Dead?)
  }

  /** Two values have the same type exactly when TYPE_MAP names them alike. */
  lemma TypeNameSameType(a: Value, b: Value)
    ensures TypeName(a) == TypeName(b) <==> SameType(a, b)
  {
    match a
    case Hp(_) =>
    case Xp(_) =>
    case Comms(_) =>
    case Flag(_) =>
    case Dead =>
      assert TypeName(a)[0] == '<';
      if TypeName(a) == TypeName(b) { assert TypeName(b)[0] == '<'; }
  }

  /** The name TYPE_MAP gives a declared type keyword, if it is one of the four. */
  predicate IsTypeKeyword(t: string) {
    t == "hp" || t == "xp" || t == "comms" || t == "flag"
  }

  /** Python `v == 0`: true for 0, 0.0 and False, false for strings and None. */
  predicate IsZero(v: Value) {
    (v.Hp? && v.hp == 0) || (v.Xp? && v.xp == 0.0) || (v.Flag? && !v.flag)
  }

  predicate IsNumber(v: Value) { v.Hp? || v.Xp? || v.Flag? }

  /** An `int` to Python, `bool` included. */
  predicate IntLike(v: Value) { v.Hp? || v.Flag? }

  function IntOf(v: Value): int
    requires IntLike(v)
  {
    if v.Hp? then v.hp else if v.flag then 1 else 0
  }

  function RealOf(v: Value): real
    requires IsNumber(v)
  {
    if v.Xp? then v.xp else IntOf(v) as real
  }

  lemma ZeroIsZeroReal(v: Value)
    requires IsNumber(v)
    ensures IsZero(v) <==> RealOf(v) == 0.0
  {
  }

  // ---- Python integer division and remainder --------------------------------

  /** Python `a // b` (floor division); Dafny's `/` is Euclidean. */
  function FloorDiv(a: int, b: int): int
    requires b != 0
  {
    if b > 0 then a / b else (-a) / (-b)
  }

  /** Python `a % b` on ints: the remainder takes the sign of `b`. */
  function FloorMod(a: int, b: int): (m: int)
    requires b != 0
    ensures a == b * FloorDiv(a, b) + m
    ensures b > 0 ==> 0 <= m < b
    ensures b < 0 ==> b < m <= 0
  {
    if b > 0 then
      a % b
    else
      var q := (-a) / (-b);
      assert (-a) == (-b) * q + (-a) % (-b);
      a - b * q
  }

  /** Python `int(a / b)` on ints: the quotient truncated toward zero. */
  function TruncDiv(a: int, b: int): (q: int)
    requires b != 0
    ensures (a >= 0) == (b > 0) ==> q >= 0
    ensures (a >= 0) != (b > 0) ==> q <= 0
    ensures Abs(b * q) <= Abs(a) < Abs(b * q) + Abs(b)
  {
    var n := Abs(a) / Abs(b);
    TruncBounds(a, b, n);
    if (a >= 0) == (b > 0) then n else -n
  }

  lemma TruncBounds(a: int, b: int, n: int)
    requires b != 0 && n == Abs(a) / Abs(b)
    ensures n >= 0
    ensures Abs(b * n) <= Abs(a) < Abs(b * n) + Abs(b)
    ensures Abs(b * -n) == Abs(b * n)
  {
    var A, B := Abs(a), Abs(b);
    assert A == B * n + A % B;
    MulAbs(b, n);
    MulAbs(b, -n);
    assert Abs(-n) == Abs(n) == n;
  }

  function Abs(x: int): (y: nat)
    ensures y == x || y == -x
  {
    if x < 0 then -x else x
  }

  lemma MulAbs(b: int, n: int)
    ensures Abs(b * n) == Abs(b) * Abs(n)
  {
    if b < 0 && n < 0 {
      assert b * n == (-b) * (-n);
    } else if b < 0 {
      assert b * n == -((-b) * n);
    } else if n < 0 {
      assert b * n == -(b * (-n));
    }
  }

  /** A real with no fractional part. */
  predicate Whole(x: real) { x.Floor as real == x }

  /** Python `x % y` on floats: `x - y * floor(x / y)`. The remainder differs from
      `x` by a whole multiple of `y` and lies between 0 and `y`. */
  function FloorModReal(x: real, y: real): (m: real)
    requires y != 0.0
    ensures y > 0.0 ==> 0.0 <= m < y
    ensures y < 0.0 ==> y < m <= 0.0
    ensures Whole((x - m) / y)
  {
    var q := (x / y).Floor as real;
    FloorModRealBounds(x, y, q);
    WholeQuotient(y, q);
    x - y * q
  }

  lemma WholeQuotient(y: real, q: real)
    requires y != 0.0 && Whole(q)
    ensures Whole((y * q) / y)
  {
    assert (y * q) / y == q;
  }

  /** The integer remainder, read as reals, differs from `a` by a whole multiple of `b`. */
  lemma FloorModWhole(a: int, b: int)
    requires b != 0
    ensures Whole(((a - FloorMod(a, b)) as real) / (b as real))
  {
    var k := FloorDiv(a, b);
    assert a - FloorMod(a, b) == b * k;
    var y, q := b as real, k as real;
    assert (b * k) as real == y * q;
    assert q.Floor == k;
    WholeQuotient(y, q);
    assert ((a - FloorMod(a, b)) as real) / y == (y * q) / y;
  }

  lemma FloorModRealBounds(x: real, y: real, q: real)
    requires y != 0.0 && q == (x / y).Floor as real
    ensures y > 0.0 ==> 0.0 <= x - y * q < y
    ensures y < 0.0 ==> y < x - y * q <= 0.0
  {
    var t := x / y;
    assert y * t == x;
    FloorBounds(t);
    ScaledFraction(x, y, q, t);
  }

  /** With `x == y * t` and `t` in `[q, q + 1)`, `x - y * q` lies between 0 and `y`. */
  lemma ScaledFraction(x: real, y: real, q: real, t: real)
    requires y != 0.0 && y * t == x && q <= t < q + 1.0
    ensures y > 0.0 ==> 0.0 <= x - y * q < y
    ensures y < 0.0 ==> y < x - y * q <= 0.0
  {
    var d := t - q;
    assert x - y * q == y * d;
    assert y - y * d == y * (1.0 - d);
    if y > 0.0 {
      PosTimes(y, d);
      PosTimesStrict(y, 1.0 - d);
      assert y * d < y;
    } else {
      assert (-y) * d == -(y * d);
      assert (-y) * (1.0 - d) == -(y * (1.0 - d));
      PosTimes(-y, d);
      PosTimesStrict(-y, 1.0 - d);
    }
  }

  lemma FloorBounds(r: real)
    ensures r.Floor as real <= r < r.Floor as real + 1.0
  {
  }

  lemma PosTimesStrict(y: real, d: real)
    requires y > 0.0 && d > 0.0
    ensures y * d > 0.0
  {
  }

  lemma PosTimes(y: real, d: real)
    requires y > 0.0 && d >= 0.0
    ensures y * d >= 0.0
  {
  }

  // ---- arithmetic on values, with Python's int/float promotion ---------------

  /** Python `a + b`, `a - b` or `a * b` on numbers (`op` one of "+", "-", "*"):
      int-like operands stay `int`, otherwise the result is a `float`. Anything else
      is Python's `TypeError` (unsupported operand). */
  function Arith(op: string, a: Value, b: Value): (r: Result<Value>)
    requires op == "+" || op == "-" || op == "*"
    ensures r.Ok? <==> IsNumber(a) && IsNumber(b)
    ensures r.Err? ==> r.exc.kind == TypeError
    ensures r.Ok? ==> (r.value.Hp? <==> IntLike(a) && IntLike(b)) && (r.value.Hp? || r.value.Xp?)
    ensures r.Ok? ==> RealOf(r.value) == RealOp(op, RealOf(a), RealOf(b))
  {
    if !(IsNumber(a) && IsNumber(b)) then
      Fail(TypeError, "unsupported operand type(s)")
    else if IntLike(a) && IntLike(b) then
      var x, y := IntOf(a), IntOf(b);
      var n := if op == "+" then x + y else if op == "-" then x - y else x * y;
      assert n as real == RealOp(op, x as real, y as real);
      Ok(Hp(n))
    else
      Ok(Xp(RealOp(op, RealOf(a), RealOf(b))))
  }

  /** The exact result of "+", "-", "*" on reals; the reference for `Arith`. */
  function RealOp(op: string, x: real, y: real): real {
    if op == "+" then x + y else if op == "-" then x - y else x * y
  }

  /** Python `a / b` on numbers: always a `float`. */
  function TrueDiv(a: Value, b: Value): (r: Result<Value>)
    ensures r.Ok? <==> IsNumber(a) && IsNumber(b) && !IsZero(b)
    ensures r.Err? && IsNumber(a) && IsNumber(b) ==> r.exc.kind == ZeroDivisionError
    ensures r.Ok? ==> r.value.Xp? && r.value.xp * RealOf(b) == RealOf(a)
  {
    if !(IsNumber(a) && IsNumber(b)) then Fail(TypeError, "unsupported operand type(s)")
    else if IsZero(b) then Fail(ZeroDivisionError, "division by zero")
    else Ok(Xp(RealOf(a) / RealOf(b)))
  }

  /** Python `a % b` on numbers: `int` when both are int-like, else `float`; the
      remainder has the sign of `b`. */
  function Mod(a: Value, b: Value): (r: Result<Value>)
    ensures r.Ok? <==> IsNumber(a) && IsNumber(b) && !IsZero(b)
    ensures r.Err? && IsNumber(a) && IsNumber(b) ==> r.exc.kind == ZeroDivisionError
    ensures r.Ok? ==> (r.value.Hp? <==> IntLike(a) && IntLike(b)) && (r.value.Hp? || r.value.Xp?)
    ensures r.Ok? && RealOf(b) > 0.0 ==> 0.0 <= RealOf(r.value) < RealOf(b)
    ensures r.Ok? && RealOf(b) < 0.0 ==> RealOf(b) < RealOf(r.value) <= 0.0
    ensures r.Ok? ==> Whole((RealOf(a) - RealOf(r.value)) / RealOf(b))
    ensures r.Ok? && IntLike(a) && IntLike(b) ==> r.value == Hp(FloorMod(IntOf(a), IntOf(b)))
  {
    if !(IsNumber(a) && IsNumber(b)) then Fail(TypeError, "unsupported operand type(s)")
    else if IsZero(b) then Fail(ZeroDivisionError, "modulo by zero")
    else if IntLike(a) && IntLike(b) then
      FloorModWhole(IntOf(a), IntOf(b));
      Ok(Hp(FloorMod(IntOf(a), IntOf(b))))
    else Ok(Xp(FloorModReal(RealOf(a), RealOf(b))))
  }
}
