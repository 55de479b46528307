/** One container's parsed sample: the unit parsing of the `docker stats`
    text fields into numbers. */
module Metrics {

  import opened Containers
  import Strings
  import Numerals

  /** A `docker stats` record as streamed, every field still text. */
  datatype RawContainerStats = RawContainerStats(
    name: string,
    cpuPerc: string,
    memUsage: string,
    memPerc: string,
    netIO: string,
    blockIO: string)

  /** The parsed record: percentages as numbers and quantities in bytes. */
  datatype ContainerStats = ContainerStats(
    time: string,
    container: Container,
    cpuPercent: real,
    memoryPercent: real,
    memoryUsage: real,
    memoryLimit: real,
    diskRead: real,
    diskWrite: real,
    networkRead: real,
    networkWrite: real)

  /** Docker's marker for a value it cannot report. */
  const Unavailable: string := "--"

  /** The separator between the two halves of `MemUsage`, `NetIO` and `BlockIO`. */
  const PairSeparator: string := " / "

  const DecimalUnits: seq<string> := ["kB", "MB", "GB", "TB"]
  const BinaryUnits: seq<string> := ["KiB", "MiB", "GiB", "TiB"]

  predicate IsAsciiLetter(c: char) {
    ('a' <= c <= 'z') || ('A' <= c <= 'Z')
  }

  predicate NoLetters(s: string) {
    forall i :: 0 <= i < |s| ==> !IsAsciiLetter(s[i])
  }

  function Power(b: real, k: nat): real {
    if k == 0 then 1.0 else b * Power(b, k - 1)
  }

  /** Every metric of a parsed record is non-negative. */
  predicate NonNegative(cs: ContainerStats) {
    && cs.cpuPercent >= 0.0 && cs.memoryPercent >= 0.0
    && cs.memoryUsage >= 0.0 && cs.memoryLimit >= 0.0
    && cs.diskRead >= 0.0 && cs.diskWrite >= 0.0
    && cs.networkRead >= 0.0 && cs.networkWrite >= 0.0
  }

  /** `"--"` is zero; otherwise the number written before the first `%`. */
  function ParsePercent(s: string): (r: real)
    ensures r >= 0.0
    ensures s == Unavailable ==> r == 0.0
  {
    if s == Unavailable then 0.0 else Numerals.ParseNum(Strings.Split(s, "%")[0])
  }

  /** The bytes in one unit of a size suffix: powers of 1000 for the decimal
      suffixes, powers of 1024 for the binary ones (see `UnitMultiplierPowers`),
      1 for anything else. */
  function UnitMultiplier(unit: string): (m: real)
    ensures m >= 1.0
    ensures unit !in DecimalUnits && unit !in BinaryUnits ==> m == 1.0
  {
    if unit == "kB" then 1000.0
    else if unit == "KiB" then 1024.0
    else if unit == "MB" then 1000.0 * 1000.0
    else if unit == "MiB" then 1024.0 * 1024.0
    else if unit == "GB" then 1000.0 * 1000.0 * 1000.0
    else if unit == "GiB" then 1024.0 * 1024.0 * 1024.0
    else if unit == "TB" then 1000.0 * 1000.0 * 1000.0 * 1000.0
    else if unit == "TiB" then 1024.0 * 1024.0 * 1024.0 * 1024.0
    else 1.0
  }

  /** The k-th decimal suffix is 1000^(k+1) bytes and the k-th binary one
      1024^(k+1) bytes. */
  lemma {:induction false} UnitMultiplierPowers(k: nat)
    requires k < 4
    ensures UnitMultiplier(DecimalUnits[k]) == Power(1000.0, k + 1)
    ensures UnitMultiplier(BinaryUnits[k]) == Power(1024.0, k + 1)
  {
    assert Power(1000.0, 1) == 1000.0 && Power(1024.0, 1) == 1024.0;
    if k >= 1 {
      assert Power(1000.0, 2) == 1000.0 * 1000.0;
      assert Power(1024.0, 2) == 1024.0 * 1024.0;
    }
    if k >= 2 {
      assert Power(1000.0, 3) == 1000.0 * 1000.0 * 1000.0;
      assert Power(1024.0, 3) == 1024.0 * 1024.0 * 1024.0;
    }
    if k == 3 {
      assert Power(1000.0, 4) == 1000.0 * 1000.0 * 1000.0 * 1000.0;
      assert Power(1024.0, 4) == 1024.0 * 1024.0 * 1024.0 * 1024.0;
    }
  }

  /** `"--"` is zero; otherwise the number before the first run of letters,
      scaled by that run read as a unit suffix. */
  function ConvertToBytes(s: string): (r: real)
    ensures r >= 0.0
    ensures s == Unavailable ==> r == 0.0
  {
    if s == Unavailable then 0.0 else Scale(Numerals.ParseNum(NumberPart(s)), UnitPart(s))
  }

  /** The switch on the unit suffix: `x` times the suffix's factors, or `x`
      itself for an unknown suffix. */
  function Scale(x: real, unit: string): (r: real)
    ensures x >= 0.0 ==> r >= x
    ensures unit !in DecimalUnits && unit !in BinaryUnits ==> r == x
  {
    if unit == "kB" then x * 1000.0
    else if unit == "KiB" then x * 1024.0
    else if unit == "MB" then x * 1000.0 * 1000.0
    else if unit == "MiB" then x * 1024.0 * 1024.0
    else if unit == "GB" then x * 1000.0 * 1000.0 * 1000.0
    else if unit == "GiB" then x * 1024.0 * 1024.0 * 1024.0
    else if unit == "TB" then x * 1000.0 * 1000.0 * 1000.0 * 1000.0
    else if unit == "TiB" then x * 1024.0 * 1024.0 * 1024.0 * 1024.0
    else x
  }

  /** The switch multiplies by exactly the unit's size in bytes. */
  lemma {:induction false} ScaleIsMultiplication(x: real, unit: string)
    ensures Scale(x, unit) == x * UnitMultiplier(unit)
  {
  }

  /** The text before the first letter (the first piece of `split(/([a-zA-Z]+)/)`). */
  function NumberPart(s: string): string {
    s[..Strings.IndexWhere(s, IsAsciiLetter)]
  }

  /** The first run of letters (the captured second piece), empty when there is none. */
  function UnitPart(s: string): string {
    var t := s[Strings.IndexWhere(s, IsAsciiLetter)..];
    t[..Strings.SpanWhile(t, IsAsciiLetter)]
  }

  /** `"--"` is a pair of zeros; otherwise the first two `" / "`-separated
      pieces, each converted to bytes. */
  function ParseMultiValues(s: string): (r: (real, real))
    ensures r.0 >= 0.0 && r.1 >= 0.0
    ensures s == Unavailable ==> r == (0.0, 0.0)
  {
    if s == Unavailable then (0.0, 0.0)
    else
      var parts := Strings.Split(s, PairSeparator);
      (ConvertToBytes(parts[0]), if |parts| >= 2 then ConvertToBytes(parts[1]) else 0.0)
  }

  /** Field-by-field parse of a raw record, stamped with `time` and joined to `container`. */
  function MakeContainerStats(time: string, container: Container, raw: RawContainerStats): (r: ContainerStats)
    ensures r.time == time && r.container == container
    ensures NonNegative(r)
    ensures (r.memoryUsage, r.memoryLimit) == ParseMultiValues(raw.memUsage)
    ensures (r.diskRead, r.diskWrite) == ParseMultiValues(raw.blockIO)
    ensures (r.networkRead, r.networkWrite) == ParseMultiValues(raw.netIO)
    ensures r.cpuPercent == ParsePercent(raw.cpuPerc) && r.memoryPercent == ParsePercent(raw.memPerc)
  {
    var mem := ParseMultiValues(raw.memUsage);
    var disk := ParseMultiValues(raw.blockIO);
    var net := ParseMultiValues(raw.netIO);
    ContainerStats(time, container,
      ParsePercent(raw.cpuPerc), ParsePercent(raw.memPerc),
      mem.0, mem.1, disk.0, disk.1, net.0, net.1)
  }

  /** The record docker sends for a container it cannot measure. */
  function UnavailableRaw(name: string): RawContainerStats {
    RawContainerStats(name, Unavailable, Unavailable, Unavailable, Unavailable, Unavailable)
  }

  /** A record made from unavailable fields has every metric zero. */
  lemma {:induction false} UnavailableIsZero(time: string, container: Container)
    ensures var r := MakeContainerStats(time, container, UnavailableRaw(container.name));
      && r.cpuPercent == 0.0 && r.memoryPercent == 0.0
      && r.memoryUsage == 0.0 && r.memoryLimit == 0.0
      && r.diskRead == 0.0 && r.diskWrite == 0.0
      && r.networkRead == 0.0 && r.networkWrite == 0.0
  {
  }

  /** A percentage is read from the text before its first `%`. */
  lemma {:induction false} ParsePercentReadsPrefix(num: string, tail: string)
    requires forall i :: 0 <= i < |num| ==> num[i] != '%'
    ensures ParsePercent(num + "%" + tail) == Numerals.ParseNum(num)
  {
    var s := num + "%" + tail;
    assert s[|num|] == '%';
    assert s != Unavailable by {
      if |num| < 2 { assert Unavailable[|num|] == '-'; }
    }
    assert s[|num|..|num| + 1] == "%";
    forall j: nat | j < |num| ensures !Strings.OccursAt(s, "%", j) {
      assert s[j] == num[j];
      assert s[j..j + 1][0] == s[j];
    }
    Strings.FindFromFirst(s, "%", 0, |num|);
    assert s[..|num|] == num;
  }

  /** The number part of a conversion ends at the first letter. */
  lemma {:induction false} FirstLetterAfterNumber(num: string, t: string)
    requires NoLetters(num)
    requires |t| > 0 && IsAsciiLetter(t[0])
    ensures Strings.IndexWhere(num + t, IsAsciiLetter) == |num|
  {
    if |num| > 0 {
      assert (num + t)[1..] == num[1..] + t;
      FirstLetterAfterNumber(num[1..], t);
    }
  }

  lemma {:induction false} SplitAtUnit(num: string, unit: string, rest: string)
    requires NoLetters(num)
    requires |unit| > 0 && forall i :: 0 <= i < |unit| ==> IsAsciiLetter(unit[i])
    requires |rest| == 0 || !IsAsciiLetter(rest[0])
    ensures NumberPart(num + unit + rest) == num
    ensures UnitPart(num + unit + rest) == unit
  {
    var t := unit + rest;
    var s := num + t;
    assert s == num + unit + rest;
    FirstLetterAfterNumber(num, t);
    assert s[..|num|] == num;
    assert s[|num|..] == t;
    SpanOfLetters(unit, rest);
    assert t[..|unit|] == unit;
  }

  /** A numeral followed by a unit suffix (and then anything that is not a
      letter) converts to the numeral's value times the unit's multiplier. */
  lemma {:induction false} ConvertWithUnit(num: string, unit: string, rest: string)
    requires NoLetters(num)
    requires |unit| > 0 && forall i :: 0 <= i < |unit| ==> IsAsciiLetter(unit[i])
    requires |rest| == 0 || !IsAsciiLetter(rest[0])
    ensures ConvertToBytes(num + unit + rest) == Scale(Numerals.ParseNum(num), unit)
  {
    var s := num + unit + rest;
    assert IsAsciiLetter(s[|num|]);
    assert s != Unavailable by {
      if |num| < 2 { assert !IsAsciiLetter(Unavailable[|num|]); }
    }
    SplitAtUnit(num, unit, rest);
  }

  lemma {:induction false} SpanOfLetters(unit: string, rest: string)
    requires forall i :: 0 <= i < |unit| ==> IsAsciiLetter(unit[i])
    requires |rest| == 0 || !IsAsciiLetter(rest[0])
    ensures Strings.SpanWhile(unit + rest, IsAsciiLetter) == |unit|
  {
    if |unit| > 0 {
      assert (unit + rest)[1..] == unit[1..] + rest;
      SpanOfLetters(unit[1..], rest);
    }
  }

  /** Text without any letter (including a bare `B`-less number) is taken as bytes. */
  lemma {:induction false} ConvertWithoutUnit(num: string)
    requires NoLetters(num) && num != Unavailable
    ensures ConvertToBytes(num) == Numerals.ParseNum(num)
  {
    assert num[..|num|] == num;
    assert num[|num|..] == [];
    assert UnitPart(num) == [];
  }

  /** `"a / b"` yields the two halves converted independently, provided neither
      half contains a space. */
  lemma {:induction false} ParseMultiValuesPair(a: string, b: string)
    requires forall i :: 0 <= i < |a| ==> a[i] != ' '
    requires forall i :: 0 <= i < |b| ==> b[i] != ' '
    ensures ParseMultiValues(a + PairSeparator + b) == (ConvertToBytes(a), ConvertToBytes(b))
  {
    var s := a + PairSeparator + b;
    assert s[|a|] == ' ';
    assert s != Unavailable by {
      if |a| < 2 { assert Unavailable[|a|] != ' '; }
    }
    forall j: nat ensures !Strings.OccursAt(b, PairSeparator, j) {
      if j + 3 <= |b| {
        assert b[j..j + 3][0] == b[j];
      }
    }
    Strings.SplitPair(a, PairSeparator, b);
  }

  /** Digits and points are not letters. */
  lemma {:induction false} NumeralHasNoLetters(a: string, b: string)
    requires Numerals.AllDigits(a) && Numerals.AllDigits(b)
    ensures NoLetters(a + "." + b)
  {
    var s := a + "." + b;
    forall i | 0 <= i < |s| ensures !IsAsciiLetter(s[i]) {
      if i < |a| {
        assert s[i] == a[i];
      } else if i > |a| {
        assert s[i] == b[i - |a| - 1];
      }
    }
  }

  /** `a.b` followed by a unit suffix converts to the decimal's value times
      the unit's multiplier. */
  lemma {:induction false} ConvertDecimalWithUnit(a: string, b: string, unit: string)
    requires Numerals.AllDigits(a) && Numerals.AllDigits(b)
    requires |unit| > 0 && forall i :: 0 <= i < |unit| ==> IsAsciiLetter(unit[i])
    ensures Numerals.ParseNum(a + "." + b) == Numerals.DigitsValue(a) as real + Numerals.Fraction(b)
    ensures ConvertToBytes(a + "." + b + unit) == Scale(Numerals.ParseNum(a + "." + b), unit)
  {
    var num := a + "." + b;
    NumeralHasNoLetters(a, b);
    ConvertWithUnit(num, unit, "");
    assert num + unit + "" == num + unit;
    Numerals.ParseDecimal(a, b, "");
    assert a + "." + b + "" == num;
  }

  /** The worked values the unit table is meant to produce. */
  lemma {:induction false} BinaryExample()
    ensures ConvertToBytes("1.5MiB") == 1572864.0
  {
    assert "1" + "." + "5" + "MiB" == "1.5MiB";
    OneAndAHalfMebibytes();
  }

  lemma {:induction false} OneAndAHalfMebibytes()
    ensures ConvertToBytes("1" + "." + "5" + "MiB") == 1572864.0
  {
    ConvertDecimalWithUnit("1", "5", "MiB");
    OneAndAHalf();
    assert Scale(1.5, "MiB") == 1572864.0;
  }

  lemma {:induction false} OneAndAHalf()
    ensures Numerals.ParseNum("1" + "." + "5") == 1.5
  {
    Numerals.ParseDecimal("1", "5", "");
    assert "1" + "." + "5" + "" == "1" + "." + "5";
    assert Numerals.DigitsValue("1") == 1;
    assert Numerals.Fraction("5") == 0.5 by {
      assert "5"[1..] == "";
    }
  }

  lemma {:induction false} DecimalExample()
    ensures ConvertToBytes("2GB") == 2000000000.0
  {
    Numerals.ParseWhole("2", "");
    assert "2" + "" == "2";
    assert Numerals.DigitsValue("2") == 2;
    ConvertWithUnit("2", "GB", "");
    assert "2" + "GB" + "" == "2GB";
  }

  lemma {:induction false} WholeMebibytes(digits: string, n: nat)
    requires Numerals.AllDigits(digits) && |digits| > 0
    requires Numerals.DigitsValue(digits) == n
    ensures ConvertToBytes(digits + "MiB") == n as real * 1024.0 * 1024.0
  {
    Numerals.ParseWhole(digits, "");
    assert digits + "" == digits;
    assert NoLetters(digits) by {
      forall i | 0 <= i < |digits| ensures !IsAsciiLetter(digits[i]) {
        assert Numerals.IsDigit(digits[i]);
      }
    }
    ConvertWithUnit(digits, "MiB", "");
    assert digits + "MiB" + "" == digits + "MiB";
  }

  lemma {:induction false} PairExample()
    ensures ParseMultiValues("10MiB / 5MiB") == (10.0 * 1024.0 * 1024.0, 5.0 * 1024.0 * 1024.0)
  {
    assert "10MiB" + PairSeparator + "5MiB" == "10MiB / 5MiB";
    ParseMultiValuesPair("10MiB", "5MiB");
    TenMebibytes();
    FiveMebibytes();
  }

  lemma {:induction false} TenMebibytes()
    ensures ConvertToBytes("10MiB") == 10.0 * 1024.0 * 1024.0
  {
    var d := "10";
    assert d[..1] == "1";
    assert Numerals.DigitsValue(d) == 10;
    WholeMebibytes(d, 10);
    assert d + "MiB" == "10MiB";
  }

  lemma {:induction false} FiveMebibytes()
    ensures ConvertToBytes("5MiB") == 5.0 * 1024.0 * 1024.0
  {
    var d := "5";
    assert Numerals.DigitsValue(d) == 5;
    WholeMebibytes(d, 5);
    assert d + "MiB" == "5MiB";
  }

  lemma {:induction false} PercentExample()
    ensures ParsePercent("12.50%") == 12.5
  {
    assert "12.50" + "%" + "" == "12.50%";
    ParsePercentReadsPrefix("12.50", "");
    assert "12" + "." + "50" == "12.50";
    TwelveAndAHalf();
  }

  lemma {:induction false} TwelveAndAHalf()
    ensures Numerals.ParseNum("12" + "." + "50") == 12.5
  {
    Numerals.ParseDecimal("12", "50", "");
    assert "12" + "." + "50" + "" == "12" + "." + "50";
    assert "12"[..1] == "1";
    assert Numerals.DigitsValue("12") == 12;
    assert Numerals.Fraction("50") == 0.5 by {
      assert "50"[1..] == "0" && "0"[1..] == "";
    }
  }
}
