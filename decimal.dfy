/** Decimal text of integers, as Swift's string interpolation (`"\(n)"`) and
    `String(format: "%08d", n)` write it, and the value a run of digits reads as. */
module Decimal {

  predicate IsDigit(c: char) {
    '0' <= c <= '9'
  }

  predicate AllDigits(s: string) {
    forall i :: 0 <= i < |s| ==> IsDigit(s[i])
  }

  function DigitValue(c: char): nat
    requires IsDigit(c)
  {
    (c as int) - ('0' as int)
  }

  function DigitChar(d: nat): (c: char)
    requires d < 10
    ensures IsDigit(c) && DigitValue(c) == d
  {
    (('0' as int) + d) as char
  }

  function Pow10(k: nat): (p: nat)
    ensures p >= 1
  {
    if k == 0 then 1 else 10 * Pow10(k - 1)
  }

  /** The number a run of decimal digits reads as (leading zeros allowed). */
  function DigitsValue(s: string): (v: nat)
    requires AllDigits(s)
    ensures v < Pow10(|s|)
  {
    if s == [] then 0 else DigitsValue(s[..|s| - 1]) * 10 + DigitValue(s[|s| - 1])
  }

  /** `"\(n)"` for a non-negative `n`: at least one digit, no leading zero,
      and the digits read back as `n`. */
  function NatToString(n: nat): (s: string)
    ensures 1 <= |s| && AllDigits(s)
    ensures DigitsValue(s) == n
    ensures |s| > 1 ==> s[0] != '0'
    decreases n
  {
    if n < 10 then [DigitChar(n)]
    else
      var prefix := NatToString(n / 10);
      var s := prefix + [DigitChar(n % 10)];
      assert s[..|s| - 1] == prefix;
      s
  }

  /** `"\(i)"`: a minus sign before the digits of a negative number. */
  function IntToString(i: int): (s: string)
    ensures s != [] && '_' !in s
  {
    if i < 0 then "-" + NatToString(-i) else NatToString(i)
  }

  /** Distinct integers have distinct decimal text. */
  lemma IntToStringInjective(i: int, j: int)
    requires IntToString(i) == IntToString(j)
    ensures i == j
  {
    var s := IntToString(i);
    if i < 0 && j < 0 {
      assert NatToString(-i) == s[1..] == NatToString(-j);
    }
  }

  function Zeros(k: nat): (z: string)
    ensures |z| == k && AllDigits(z)
  {
    seq(k, _ => '0')
  }

  /** The zero flag of a `%0<width>d` conversion: pad on the left with zeros. */
  function ZeroPadded(s: string, width: nat): (padded: string)
    requires AllDigits(s)
    ensures |padded| == if |s| < width then width else |s|
    ensures AllDigits(padded) && DigitsValue(padded) == DigitsValue(s)
  {
    if |s| < width then
      ZerosDoNotCount(width - |s|, s);
      Zeros(width - |s|) + s
    else s
  }

  /** `String(format: "%08d", i)`: eight characters at least, the sign counting
      as one; the digits read back as the magnitude of `i`. */
  function Format08d(i: int): (text: string)
    ensures |text| >= 8
    ensures i >= 0 <==> AllDigits(text)
    ensures i >= 0 ==> DigitsValue(text) == i
    ensures i < 0 ==> text[0] == '-' && AllDigits(text[1..]) && DigitsValue(text[1..]) == -i
  {
    if i < 0 then
      var text := "-" + ZeroPadded(NatToString(-i), 7);
      assert text[1..] == ZeroPadded(NatToString(-i), 7);
      assert !IsDigit(text[0]);
      text
    else ZeroPadded(NatToString(i), 8)
  }

  /** Reading `a + b` is reading `a`, shifting by the length of `b`, and adding `b`. */
  lemma {:induction false} DigitsValueSplit(a: string, b: string)
    requires AllDigits(a) && AllDigits(b)
    ensures AllDigits(a + b)
    ensures DigitsValue(a + b) == DigitsValue(a) * Pow10(|b|) + DigitsValue(b)
    decreases |b|
  {
    var ab := a + b;
    assert AllDigits(ab);
    if b == [] {
      assert ab == a;
    } else {
      var b' := b[..|b| - 1];
      assert ab[..|ab| - 1] == a + b';
      DigitsValueSplit(a, b');
      assert b[..|b| - 1] == b';
      ShiftOneDigit(DigitsValue(a), Pow10(|b'|), DigitsValue(b'), DigitValue(b[|b| - 1]));
    }
  }

  lemma ShiftOneDigit(x: int, p: int, y: int, d: int)
    ensures (x * p + y) * 10 + d == x * (10 * p) + (y * 10 + d)
  {
  }

  /** Leading zeros do not change the value. */
  lemma ZerosDoNotCount(k: nat, s: string)
    requires AllDigits(s)
    ensures AllDigits(Zeros(k) + s)
    ensures DigitsValue(Zeros(k) + s) == DigitsValue(s)
  {
    DigitsValueSplit(Zeros(k), s);
    ZerosReadAsZero(k);
  }

  lemma {:induction false} ZerosReadAsZero(k: nat)
    ensures DigitsValue(Zeros(k)) == 0
  {
    if k > 0 {
      assert Zeros(k)[..k - 1] == Zeros(k - 1);
      ZerosReadAsZero(k - 1);
    }
  }

  /** A number below 10^k needs at most k digits. */
  lemma {:induction false} NatToStringLength(n: nat, k: nat)
    requires 1 <= k && n < Pow10(k)
    ensures |NatToString(n)| <= k
    decreases n
  {
    if n >= 10 {
      assert k >= 2;
      NatToStringLength(n / 10, k - 1);
    }
  }
}
