/** Decimal rendering of integers, as Python's f-string `{n}` and JavaScript's
    `n + ""` both produce it, with the parse that inverts it. */
module Decimal {
  import Results

  predicate IsDigit(c: char) { '0' <= c <= '9' }

  function DigitChar(d: nat): (c: char)
    requires d < 10
    ensures IsDigit(c) && c as int - '0' as int == d
  {
    ('0' as int + d) as char
  }

  /** The decimal digits of `n`, most significant first, without leading zeros. */
  function NatToString(n: nat): (s: string)
    ensures |s| >= 1
    ensures forall i :: 0 <= i < |s| ==> IsDigit(s[i])
    ensures |s| > 1 ==> s[0] != '0'
    ensures n < 10 <==> |s| == 1
    decreases n
  {
    if n < 10 then [DigitChar(n)] else NatToString(n / 10) + [DigitChar(n % 10)]
  }

  /** A leading `-` for negative numbers. */
  function IntToString(n: int): (s: string)
    ensures |s| >= 1
    ensures n < 0 <==> s[0] == '-'
  {
    if n < 0 then "-" + NatToString(-n) else NatToString(n)
  }

  /** The value of a string of decimal digits. */
  function ParseNat(s: string): nat
    requires forall i :: 0 <= i < |s| ==> IsDigit(s[i])
  {
    if s == [] then 0
    else
      assert IsDigit(s[|s| - 1]);
      10 * ParseNat(s[..|s| - 1]) + (s[|s| - 1] as int - '0' as int)
  }

  /** Rendering and parsing are inverse. */
  lemma {:induction false} ParseNatToString(n: nat)
    ensures ParseNat(NatToString(n)) == n
    decreases n
  {
    var s := NatToString(n);
    if n >= 10 {
      ParseNatToString(n / 10);
      assert s[..|s| - 1] == NatToString(n / 10);
    }
  }

  /** Distinct numbers are rendered differently. */
  lemma NatToStringInjective(m: nat, n: nat)
    requires NatToString(m) == NatToString(n)
    ensures m == n
  {
    ParseNatToString(m);
    ParseNatToString(n);
  }

  predicate AllDigits(s: string) {
    forall i :: 0 <= i < |s| ==> IsDigit(s[i])
  }

  function Pow10(n: nat): (p: nat)
    ensures p >= 1
  {
    if n == 0 then 1 else 10 * Pow10(n - 1)
  }

  /** Python `int(s)` on the literal forms the lexers produce: an optional sign and
      one or more ASCII decimal digits. Other text is treated as `ValueError`, which
      is narrower than Python (see README). */
  function PyInt(s: string): (r: Results.Result<int>)
    ensures r.Ok? <==> (s != [] && AllDigits(s)) || (|s| >= 2 && (s[0] == '-' || s[0] == '+') && AllDigits(s[1..]))
  {
    if s != [] && AllDigits(s) then Results.Ok(ParseNat(s) as int)
    else if |s| >= 2 && s[0] == '-' && AllDigits(s[1..]) then Results.Ok(0 - ParseNat(s[1..]))
    else if |s| >= 2 && s[0] == '+' && AllDigits(s[1..]) then Results.Ok(ParseNat(s[1..]) as int)
    else Results.Fail(Results.ValueError, "invalid literal for int()")
  }

  /** `int(str(n)) == n`. */
  lemma PyIntToString(n: int)
    ensures PyInt(IntToString(n)) == Results.Ok(n)
  {
    if n < 0 {
      var d := NatToString(-n);
      var s := "-" + d;
      assert s[1..] == d;
      assert !IsDigit(s[0]);
      assert !AllDigits(s);
      ParseNatToString(-n);
    } else {
      ParseNatToString(n);
    }
  }

  /** The unsigned value of `digits [. fraction]`, exactly. */
  function UnsignedDecimal(s: string): real
    requires IsUnsignedDecimal(s)
  {
    var k := DotIndex(s);
    if k == |s| then ParseNat(s) as real
    else
      assert AllDigits(s[..k]) && AllDigits(s[k + 1..]);
      ParseNat(s[..k]) as real + (ParseNat(s[k + 1..]) as real) / (Pow10(|s| - k - 1) as real)
  }

  /** Digits with at most one `.`, and at least one digit. */
  predicate IsUnsignedDecimal(s: string) {
    var k := DotIndex(s);
    (k == |s| ==> s != [] && AllDigits(s)) &&
    (k < |s| ==> AllDigits(s[..k]) && AllDigits(s[k + 1..]) && |s| >= 2)
  }

  /** The index of the first `.`, or `|s|` when there is none. */
  function DotIndex(s: string): (k: nat)
    ensures k <= |s|
    ensures k < |s| ==> s[k] == '.'
    ensures forall i :: 0 <= i < k ==> s[i] != '.'
  {
    if s == [] then 0 else if s[0] == '.' then 0 else 1 + DotIndex(s[1..])
  }

  /** Python `float(s)` on the literal forms the lexers produce: an optional sign,
      ASCII digits and at most one `.`. The value is exact (no rounding). Other text
      is treated as `ValueError`, which is narrower than Python (see README). */
  function PyFloat(s: string): (r: Results.Result<real>)
    ensures r.Ok? <==> IsUnsignedDecimal(s) || (|s| >= 2 && (s[0] == '-' || s[0] == '+') && IsUnsignedDecimal(s[1..]))
    ensures r.Ok? && s != [] && s[0] == '-' ==> r.value <= 0.0
  {
    if IsUnsignedDecimal(s) then Results.Ok(UnsignedDecimal(s))
    else if |s| >= 2 && s[0] == '-' && IsUnsignedDecimal(s[1..]) then Results.Ok(-UnsignedDecimal(s[1..]))
    else if |s| >= 2 && s[0] == '+' && IsUnsignedDecimal(s[1..]) then Results.Ok(UnsignedDecimal(s[1..]))
    else Results.Fail(Results.ValueError, "could not convert string to float")
  }

  /** An integer written without a dot reads back as the same number through `float`. */
  lemma PyFloatOfInt(n: nat)
    ensures PyFloat(NatToString(n)) == Results.Ok(n as real)
  {
    var s := NatToString(n);
    NoDotInDigits(s);
    ParseNatToString(n);
  }

  lemma NoDotInDigits(s: string)
    requires AllDigits(s)
    ensures DotIndex(s) == |s|
  {
    if s != [] {
      assert IsDigit(s[0]);
      NoDotInDigits(s[1..]);
    }
  }
}
