/** One plotted value: a device reading for one series, rounded to cents. */
module Dots {

  import opened Devices

  /** `x` has at most two decimals. */
  predicate IsCents(x: real) {
    (100.0 * x).Floor as real == 100.0 * x
  }

  /** `Math.round(100 x) / 100`, where `Math.round` rounds halves upwards. */
  function Round2(x: real): (r: real)
    ensures IsCents(r)
    ensures x - 0.005 < r <= x + 0.005
  {
    var n := (100.0 * x + 0.5).Floor;
    assert (100.0 * (n as real / 100.0)).Floor == n;
    n as real / 100.0
  }

  /** Rounding leaves a value that already has two decimals unchanged; in
      particular rounding twice is rounding once. */
  lemma {:induction false} Round2Fixes(x: real)
    requires IsCents(x)
    ensures Round2(x) == x
  {
    var k := (100.0 * x).Floor;
    assert (100.0 * x + 0.5).Floor == k;
  }

  lemma {:induction false} Round2Idempotent(x: real)
    ensures Round2(Round2(x)) == Round2(x)
  {
    Round2Fixes(Round2(x));
  }

  /** Rounding never flips a sign: read values stay non-negative and
      negated write values non-positive. */
  lemma {:induction false} Round2KeepsSign(x: real)
    ensures x >= 0.0 ==> Round2(x) >= 0.0
    ensures x <= 0.0 ==> Round2(x) <= 0.0
  {
    var n := (100.0 * x + 0.5).Floor;
    assert Round2(x) == n as real / 100.0;
  }

  /** Sums of two-decimal values have two decimals. */
  lemma {:induction false} CentsSum(a: real, b: real)
    requires IsCents(a) && IsCents(b)
    ensures IsCents(a + b)
  {
    var ka, kb := (100.0 * a).Floor, (100.0 * b).Floor;
    assert 100.0 * (a + b) == (ka + kb) as real;
  }

  lemma {:induction false} CentsNegate(a: real)
    requires IsCents(a)
    ensures IsCents(-a)
  {
    var k := (100.0 * a).Floor;
    assert 100.0 * -a == (-k) as real;
  }

  /** `read` marks the first half of a read/write pair and `write` the second;
      a dot with neither is a plain ("default") value. */
  datatype Dot = Dot(device: Device, name: string, color: string, value: real, read: bool, write: bool)

  /** The constructor: stores everything as given except the value, which is rounded. */
  function MakeDot(device: Device, name: string, color: string, value: real, read: bool, write: bool): (d: Dot)
    ensures d.device == device && d.name == name && d.color == color
    ensures d.read == read && d.write == write
    ensures IsCents(d.value) && value - 0.005 < d.value <= value + 0.005
  {
    Dot(device, name, color, Round2(value), read, write)
  }

  /** A dot built from an already rounded value carries that value exactly. */
  lemma {:induction false} MakeDotExact(device: Device, name: string, color: string, value: real, read: bool, write: bool)
    requires IsCents(value)
    ensures MakeDot(device, name, color, value, read, write).value == value
  {
    Round2Fixes(value);
  }

  predicate IsWrite(d: Dot) { d.write }
  predicate IsDefault(d: Dot) { !d.read && !d.write }
  predicate HasWriteSibling(d: Dot) { d.read && !d.write }

  /** Every dot is exactly one of default, write, or read-with-sibling; the
      flags on the constructor's defaults give a default dot. */
  lemma {:induction false} DotKindsPartition(d: Dot)
    ensures IsDefault(d) <==> !IsWrite(d) && !HasWriteSibling(d)
    ensures !(IsWrite(d) && HasWriteSibling(d))
    ensures !(IsDefault(d) && IsWrite(d))
    ensures IsDefault(MakeDot(d.device, d.name, d.color, d.value, false, false))
  {
  }
}
