/**
  The Java `int` semantics the account-number allocation relies on:
  32-bit two's-complement wrap-around of `+`, `Integer.parseInt` on a
  decimal string and the decimal rendering produced by `n + ""`.
 */
module JavaInt {
  import opened Wrappers

  const IntMin: int := -0x8000_0000
  const IntMax: int := 0x7fff_ffff
  const TwoTo32: int := 0x1_0000_0000

  predicate InIntRange(x: int) {
    IntMin <= x <= IntMax
  }

  /** The value a Java `int` expression holds when the exact result is `x`. */
  function Wrap32(x: int): (r: int)
    ensures InIntRange(r)
    ensures InIntRange(x) ==> r == x
  {
    (x - IntMin) % TwoTo32 + IntMin
  }

  /** Wrapping after each `+ 1` is the same as wrapping once at the end. */
  lemma WrapSucc(x: int)
    ensures Wrap32(Wrap32(x) + 1) == Wrap32(x + 1)
  {
    var y := x - IntMin;
    var q := y / TwoTo32;
    assert y == q * TwoTo32 + y % TwoTo32;
    if y % TwoTo32 == TwoTo32 - 1 {
      assert y + 1 == (q + 1) * TwoTo32;
    } else {
      assert y + 1 == q * TwoTo32 + (y % TwoTo32 + 1);
    }
  }

  /** Two exact values less than 2^32 apart never wrap to the same `int`. */
  lemma WrapInjectiveOnWindow(x: int, y: int)
    requires x < y < x + TwoTo32
    ensures Wrap32(x) != Wrap32(y)
  {
    var a, b := x - IntMin, y - IntMin;
    assert a == (a / TwoTo32) * TwoTo32 + a % TwoTo32;
    assert b == (b / TwoTo32) * TwoTo32 + b % TwoTo32;
  }

  predicate IsDigit(c: char) {
    '0' <= c <= '9'
  }

  predicate AllDigits(s: string) {
    forall i :: 0 <= i < |s| ==> IsDigit(s[i])
  }

  function DigitValue(c: char): (d: nat)
    requires IsDigit(c)
    ensures d < 10
  {
    c as int - '0' as int
  }

  function DigitChar(d: nat): (c: char)
    requires d < 10
    ensures IsDigit(c) && DigitValue(c) == d
  {
    ('0' as int + d) as char
  }

  /** The value of a string of decimal digits, most significant first. */
  function DigitsValue(s: string): nat
    requires AllDigits(s)
  {
    if s == [] then 0 else DigitsValue(s[..|s| - 1]) * 10 + DigitValue(s[|s| - 1])
  }

  /** The shortest decimal rendering of a natural number. */
  function FormatNat(n: nat): (s: string)
    ensures |s| > 0 && AllDigits(s)
  {
    if n < 10 then [DigitChar(n)] else FormatNat(n / 10) + [DigitChar(n % 10)]
  }

  /** `Integer.toString(x)`, which is what `x + ""` produces. */
  function FormatInt(x: int): string {
    if x < 0 then "-" + FormatNat(-x) else FormatNat(x)
  }

  /**
    `Integer.parseInt(s)`: an optional sign followed by at least one
    decimal digit, whose value fits in an `int`; `None` stands for the
    `NumberFormatException` thrown otherwise.
   */
  function ParseInt(s: string): (r: Option<int>)
    ensures r.Some? ==> InIntRange(r.value)
  {
    if |s| == 0 then None
    else
      var digits := if s[0] == '-' || s[0] == '+' then s[1..] else s;
      if |digits| == 0 || !AllDigits(digits) then None
      else
        var v: int := if s[0] == '-' then -(DigitsValue(digits) as int) else DigitsValue(digits);
        if InIntRange(v) then Some(v) else None
  }

  lemma {:induction false} DigitsValueOfFormat(n: nat)
    ensures DigitsValue(FormatNat(n)) == n
  {
    if n >= 10 {
      var s := FormatNat(n);
      assert s[..|s| - 1] == FormatNat(n / 10);
      DigitsValueOfFormat(n / 10);
    }
  }

  /** Parsing the rendering of any `int` gives that `int` back. */
  lemma ParseFormatRoundTrip(x: int)
    requires InIntRange(x)
    ensures ParseInt(FormatInt(x)) == Some(x)
  {
    if x < 0 {
      var s := FormatInt(x);
      assert s[1..] == FormatNat(-x);
      DigitsValueOfFormat(-x);
    } else {
      DigitsValueOfFormat(x);
    }
  }

  /** Different `int`s have different renderings. */
  lemma FormatIntInjective(x: int, y: int)
    requires InIntRange(x) && InIntRange(y) && x != y
    ensures FormatInt(x) != FormatInt(y)
  {
    ParseFormatRoundTrip(x);
    ParseFormatRoundTrip(y);
  }

  function Pow10(k: nat): (p: nat)
    ensures p >= 1
  {
    if k == 0 then 1 else 10 * Pow10(k - 1)
  }

  /** A number with `k` significant digits is rendered with exactly `k` characters. */
  lemma {:induction false} FormatNatLength(n: nat, k: nat)
    requires 1 <= k && Pow10(k - 1) <= n < Pow10(k)
    ensures |FormatNat(n)| == k
  {
    if k > 1 {
      assert Pow10(k - 1) == 10 * Pow10(k - 2);
      FormatNatLength(n / 10, k - 1);
    }
  }
}
