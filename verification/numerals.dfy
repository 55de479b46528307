/** Decimal numerals: the part of `parseFloat` the dashboard exercises
    (unsigned `digits[.digits]` prefixes) and the decimal rendering of
    naturals used to build `dot-<index>` keys. */
module Numerals {

  import Strings

  predicate IsDigit(c: char) {
    '0' <= c <= '9'
  }

  predicate AllDigits(s: string) {
    forall i :: 0 <= i < |s| ==> IsDigit(s[i])
  }

  function DigitValue(c: char): nat
    requires IsDigit(c)
  {
    c as int - '0' as int
  }

  function DigitChar(d: nat): char
    requires d < 10
  {
    ('0' as int + d) as char
  }

  /** Value of a digit string read in base ten, most significant digit first. */
  function DigitsValue(d: string): nat
    requires AllDigits(d)
  {
    if |d| == 0 then 0 else 10 * DigitsValue(d[..|d| - 1]) + DigitValue(d[|d| - 1])
  }

  function Pow10(k: nat): (p: nat)
    ensures p >= 1
  {
    if k == 0 then 1 else 10 * Pow10(k - 1)
  }

  /** `parseFloat` on the unsigned decimal grammar `D* [. D*]`: the value of
      the longest numeral prefix, fractional digits included. */
  function ParseNum(s: string): (r: real)
    ensures r >= 0.0
  {
    var n := Strings.SpanWhile(s, IsDigit);
    var whole := DigitsValue(s[..n]) as real;
    if n < |s| && s[n] == '.' then whole + Fraction(s[n + 1..]) else whole
  }

  /** Value of the digits after a decimal point, up to the first non-digit,
      read right to left: `0.d1d2... = (d1 + 0.d2...) / 10`. */
  function Fraction(s: string): (r: real)
    ensures 0.0 <= r < 1.0
    decreases |s|
  {
    if |s| == 0 || !IsDigit(s[0]) then 0.0 else (DigitValue(s[0]) as real + Fraction(s[1..])) / 10.0
  }

  /** The digit run of `a + rest` is exactly `a` when `rest` does not continue it. */
  lemma {:induction false} SpanOfDigits(a: string, rest: string)
    requires AllDigits(a)
    requires |rest| == 0 || !IsDigit(rest[0])
    ensures Strings.SpanWhile(a + rest, IsDigit) == |a|
  {
    if |a| > 0 {
      assert (a + rest)[1..] == a[1..] + rest;
      SpanOfDigits(a[1..], rest);
    }
  }

  /** A whole numeral followed by text that is neither a digit nor a point
      parses to the numeral's value. */
  lemma {:induction false} ParseWhole(a: string, rest: string)
    requires AllDigits(a)
    requires |rest| == 0 || (!IsDigit(rest[0]) && rest[0] != '.')
    ensures ParseNum(a + rest) == DigitsValue(a) as real
  {
    SpanOfDigits(a, rest);
    assert (a + rest)[..|a|] == a;
  }

  /** The fraction stops at the first non-digit. */
  lemma {:induction false} FractionOfDigits(b: string, rest: string)
    requires AllDigits(b)
    requires |rest| == 0 || !IsDigit(rest[0])
    ensures Fraction(b + rest) == Fraction(b)
  {
    if |b| > 0 {
      assert (b + rest)[1..] == b[1..] + rest;
      FractionOfDigits(b[1..], rest);
    }
  }

  lemma {:induction false} ParseNumWithPoint(a: string, t: string)
    requires AllDigits(a)
    ensures ParseNum(a + ['.'] + t) == DigitsValue(a) as real + Fraction(t)
  {
    var s := a + ['.'] + t;
    assert s == a + (['.'] + t);
    SpanOfDigits(a, ['.'] + t);
    assert s[..|a|] == a;
    assert s[|a|] == '.';
    assert s[|a| + 1..] == t;
  }

  /** `a.b` followed by text that does not continue the fraction parses to
      the whole part plus the fraction of `b`. */
  lemma {:induction false} ParseDecimal(a: string, b: string, rest: string)
    requires AllDigits(a) && AllDigits(b)
    requires |rest| == 0 || !IsDigit(rest[0])
    ensures ParseNum(a + "." + b + rest) == DigitsValue(a) as real + Fraction(b)
  {
    assert a + "." + b + rest == a + ['.'] + (b + rest);
    ParseNumWithPoint(a, b + rest);
    FractionOfDigits(b, rest);
  }

  /** Decimal rendering of a natural number, without leading zeros. */
  function NatToString(n: nat): (s: string)
    ensures |s| >= 1 && AllDigits(s)
    ensures DigitsValue(s) == n
  {
    if n < 10 then [DigitChar(n)]
    else
      var prefix := NatToString(n / 10);
      var s := prefix + [DigitChar(n % 10)];
      assert s[..|s| - 1] == prefix;
      s
  }

  /** Rendering then parsing a natural gives it back, so `NatToString` is injective. */
  lemma {:induction false} NatToStringRoundTrip(n: nat, rest: string)
    requires |rest| == 0 || (!IsDigit(rest[0]) && rest[0] != '.')
    ensures ParseNum(NatToString(n) + rest) == n as real
  {
    ParseWhole(NatToString(n), rest);
  }
}
