/** The dots of one chart at one moment, kept in descending order of value,
    and their aggregation into totals. */
module Items {

  import opened Wrappers
  import opened Devices
  import opened Dots
  import Seqs
  import Sorting

  datatype ChartItem = ChartItem(time: string, dots: seq<Dot>)

  function NewItem(time: string): ChartItem {
    ChartItem(time, [])
  }

  /** The order of the comparator `b.value - a.value`: larger values first. */
  function ValueDesc(): (Dot, Dot) -> bool {
    (a: Dot, b: Dot) => a.value >= b.value
  }

  lemma {:induction false} ValueDescIsTotalPreorder()
    ensures Sorting.TotalPreorder(ValueDesc())
  {
  }

  /** Appends the dot and re-sorts, largest value first (a stable sort). */
  function AddDot(item: ChartItem, d: Dot): (r: ChartItem)
    ensures r.time == item.time
    ensures multiset(r.dots) == multiset(item.dots) + multiset{d}
    ensures Sorting.SortedBy(r.dots, ValueDesc())
  {
    ValueDescIsTotalPreorder();
    Sorting.SortBySorted(item.dots + [d], ValueDesc());
    ChartItem(item.time, Sorting.SortBy(item.dots + [d], ValueDesc()))
  }

  /** Adds the dots one after another. */
  function AddDots(item: ChartItem, ds: seq<Dot>): (r: ChartItem)
    ensures r.time == item.time
    ensures multiset(r.dots) == multiset(item.dots) + multiset(ds)
    ensures |ds| > 0 || Sorting.SortedBy(item.dots, ValueDesc()) ==> Sorting.SortedBy(r.dots, ValueDesc())
    decreases |ds|
  {
    if |ds| == 0 then item
    else
      assert ds == [ds[0]] + ds[1..];
      AddDots(AddDot(item, ds[0]), ds[1..])
  }

  /** `s` is the write half of the pair whose read half is `d`. */
  predicate IsWriteSiblingOf(d: Dot, s: Dot) {
    IsWrite(s) && s.device == d.device && s.name == d.name
  }

  /** The first write dot of the same device and series as `d`, if any. */
  function GetWriteSibling(item: ChartItem, d: Dot): (r: Option<Dot>)
    ensures r.Some? ==> r.value in item.dots && IsWriteSiblingOf(d, r.value)
    ensures r.Some? ==>
      exists i :: 0 <= i < |item.dots| && item.dots[i] == r.value && forall j :: 0 <= j < i ==> !IsWriteSiblingOf(d, item.dots[j])
    ensures r.None? <==> forall s :: s in item.dots ==> !IsWriteSiblingOf(d, s)
  {
    match Seqs.FindIndex(item.dots, s => IsWriteSiblingOf(d, s))
    case None => None
    case Some(i) => Some(item.dots[i])
  }

  /** The sum of the values, accumulated left to right from 0. */
  function Total(ds: seq<Dot>): real {
    if |ds| == 0 then 0.0 else Total(ds[..|ds| - 1]) + ds[|ds| - 1].value
  }

  lemma {:induction false} TotalConcat(a: seq<Dot>, b: seq<Dot>)
    ensures Total(a + b) == Total(a) + Total(b)
    decreases |b|
  {
    if |b| == 0 {
      assert a + b == a;
    } else {
      assert (a + b)[..|a + b| - 1] == a + b[..|b| - 1];
      TotalConcat(a, b[..|b| - 1]);
    }
  }

  /** The total does not depend on the order of the dots. */
  lemma {:induction false} TotalPermutation(a: seq<Dot>, b: seq<Dot>)
    requires multiset(a) == multiset(b)
    ensures Total(a) == Total(b)
    decreases |a|
  {
    if |a| > 0 {
      var x := a[|a| - 1];
      var a' := a[..|a| - 1];
      assert a == a' + [x];
      assert x in multiset(b);
      var k :| 0 <= k < |b| && b[k] == x;
      var pre, post := b[..k], b[k + 1..];
      assert b == pre + ([x] + post);
      assert multiset(pre + post) == multiset(b) - multiset{x};
      assert multiset(a') == multiset(a) - multiset{x};
      TotalPermutation(a', pre + post);
      TotalSingleton(x);
      TotalConcat(pre, [x] + post);
      TotalConcat([x], post);
      TotalConcat(pre, post);
      assert Total(b) == Total(pre) + x.value + Total(post);
      assert Total(a) == Total(a') + x.value;
    }
  }

  lemma {:induction false} TotalOfCents(ds: seq<Dot>)
    requires forall i :: 0 <= i < |ds| ==> IsCents(ds[i].value)
    ensures IsCents(Total(ds))
    decreases |ds|
  {
    if |ds| == 0 {
      assert 100.0 * 0.0 == 0 as real;
    } else {
      TotalOfCents(ds[..|ds| - 1]);
      CentsSum(Total(ds[..|ds| - 1]), ds[|ds| - 1].value);
    }
  }

  /** A total dot for `group`, carrying the device of its first member. */
  function TotalDot(group: seq<Dot>, read: bool, write: bool): (d: Dot)
    requires |group| > 0
    ensures d.device == group[0].device && d.name == group[0].device.name + " total"
    ensures d.color == group[0].device.color && d.read == read && d.write == write
    ensures IsCents(d.value) && Total(group) - 0.005 < d.value <= Total(group) + 0.005
  {
    var dev := group[0].device;
    MakeDot(dev, dev.name + " total", dev.color, Total(group), read, write)
  }

  /** Collapses the dots into totals: one default total when any default dot
      exists; otherwise a read total followed by a write total when both kinds
      exist; otherwise the item is left as it is. */
  function MergeDots(item: ChartItem): (r: ChartItem)
    ensures r.time == item.time
    ensures var defaultDots := Seqs.Filter(item.dots, IsDefault);
      |defaultDots| > 0 ==> |r.dots| == 1 && IsDefault(r.dots[0]) && r.dots[0] == TotalDot(defaultDots, false, false)
    ensures var defaultDots := Seqs.Filter(item.dots, IsDefault);
      var readDots := Seqs.Filter(item.dots, HasWriteSibling);
      var writeDots := Seqs.Filter(item.dots, IsWrite);
      |defaultDots| == 0 && |readDots| > 0 && |writeDots| > 0 ==>
        r.dots == [TotalDot(readDots, true, false), TotalDot(writeDots, false, true)]
    ensures var defaultDots := Seqs.Filter(item.dots, IsDefault);
      var readDots := Seqs.Filter(item.dots, HasWriteSibling);
      var writeDots := Seqs.Filter(item.dots, IsWrite);
      |defaultDots| == 0 && (|readDots| == 0 || |writeDots| == 0) ==> r == item
  {
    var defaultDots := Seqs.Filter(item.dots, IsDefault);
    var readDots := Seqs.Filter(item.dots, HasWriteSibling);
    var writeDots := Seqs.Filter(item.dots, IsWrite);
    if |defaultDots| > 0 then ChartItem(item.time, [TotalDot(defaultDots, false, false)])
    else if |readDots| > 0 && |writeDots| > 0 then
      ChartItem(item.time, [TotalDot(readDots, true, false), TotalDot(writeDots, false, true)])
    else item
  }

  lemma {:induction false} TotalSingleton(d: Dot)
    ensures Total([d]) == d.value
  {
    assert [d][..0] == [];
  }

  /** Merging a merged item changes nothing: totals of totals are the totals. */
  lemma {:induction false} MergeDotsIdempotent(item: ChartItem)
    ensures MergeDots(MergeDots(item)) == MergeDots(item)
  {
    var m := MergeDots(item);
    var defaultDots := Seqs.Filter(item.dots, IsDefault);
    var readDots := Seqs.Filter(item.dots, HasWriteSibling);
    var writeDots := Seqs.Filter(item.dots, IsWrite);
    if |defaultDots| > 0 {
      var t := m.dots[0];
      assert m.dots == [t];
      Seqs.FilterOne(t, IsDefault);
      TotalSingleton(t);
      Round2Fixes(t.value);
      assert TotalDot([t], false, false) == t;
    } else if |readDots| > 0 && |writeDots| > 0 {
      var rd, wr := m.dots[0], m.dots[1];
      assert m.dots == [rd] + [wr];
      Seqs.FilterConcat([rd], [wr], IsDefault);
      Seqs.FilterConcat([rd], [wr], HasWriteSibling);
      Seqs.FilterConcat([rd], [wr], IsWrite);
      Seqs.FilterOne(rd, IsDefault);
      Seqs.FilterOne(wr, IsDefault);
      Seqs.FilterOne(rd, HasWriteSibling);
      Seqs.FilterOne(wr, HasWriteSibling);
      Seqs.FilterOne(rd, IsWrite);
      Seqs.FilterOne(wr, IsWrite);
      TotalSingleton(rd);
      TotalSingleton(wr);
      Round2Fixes(rd.value);
      Round2Fixes(wr.value);
      assert TotalDot([rd], true, false) == rd;
      assert TotalDot([wr], false, true) == wr;
    }
  }

  /** When every dot already has two decimals (as constructed dots do), the
      merged totals are the exact sums of their groups. */
  lemma {:induction false} MergeDotsExactSums(item: ChartItem)
    requires forall i :: 0 <= i < |item.dots| ==> IsCents(item.dots[i].value)
    ensures var defaultDots := Seqs.Filter(item.dots, IsDefault);
      |defaultDots| > 0 ==> MergeDots(item).dots[0].value == Total(defaultDots)
    ensures var defaultDots := Seqs.Filter(item.dots, IsDefault);
      var readDots := Seqs.Filter(item.dots, HasWriteSibling);
      var writeDots := Seqs.Filter(item.dots, IsWrite);
      |defaultDots| == 0 && |readDots| > 0 && |writeDots| > 0 ==>
        MergeDots(item).dots[0].value == Total(readDots) && MergeDots(item).dots[1].value == Total(writeDots)
  {
    forall p: Dot -> bool ensures IsCents(Total(Seqs.Filter(item.dots, p))) {
      var f := Seqs.Filter(item.dots, p);
      forall i | 0 <= i < |f| ensures IsCents(f[i].value) {
        assert f[i] in item.dots;
      }
      TotalOfCents(f);
    }
    var defaultDots := Seqs.Filter(item.dots, IsDefault);
    var readDots := Seqs.Filter(item.dots, HasWriteSibling);
    var writeDots := Seqs.Filter(item.dots, IsWrite);
    Round2Fixes(Total(defaultDots));
    Round2Fixes(Total(readDots));
    Round2Fixes(Total(writeDots));
  }

  /** All dots of the item belong to one device, as they do in every chart. */
  predicate SingleDevice(item: ChartItem) {
    forall i :: 0 <= i < |item.dots| ==> item.dots[i].device == item.dots[0].device
  }

  lemma {:induction false} FilterSameMultiset(a: seq<Dot>, b: seq<Dot>, p: Dot -> bool)
    requires multiset(a) == multiset(b)
    ensures multiset(Seqs.Filter(a, p)) == multiset(Seqs.Filter(b, p))
    ensures |Seqs.Filter(a, p)| == |Seqs.Filter(b, p)|
    ensures Total(Seqs.Filter(a, p)) == Total(Seqs.Filter(b, p))
  {
    var fa, fb := Seqs.Filter(a, p), Seqs.Filter(b, p);
    Seqs.FilterMultiset(a, p);
    Seqs.FilterMultiset(b, p);
    assert multiset(fa) == multiset(fb) by {
      forall x ensures multiset(fa)[x] == multiset(fb)[x] {
      }
    }
    assert |fa| == |multiset(fa)| == |multiset(fb)| == |fb|;
    TotalPermutation(fa, fb);
  }

  /** Totals of groups with equal sums and the same device are the same dot. */
  lemma {:induction false} SameTotalDot(ga: seq<Dot>, gb: seq<Dot>, read: bool, write: bool)
    requires |ga| > 0 && |gb| > 0
    requires ga[0].device == gb[0].device && Total(ga) == Total(gb)
    ensures TotalDot(ga, read, write) == TotalDot(gb, read, write)
  {
  }

  /** A non-empty filter of a single-device item starts with that device. */
  lemma {:induction false} FilterHeadDevice(item: ChartItem, p: Dot -> bool)
    requires SingleDevice(item) && |Seqs.Filter(item.dots, p)| > 0
    ensures Seqs.Filter(item.dots, p)[0].device == item.dots[0].device
  {
    var f := Seqs.Filter(item.dots, p);
    assert f[0] in item.dots;
  }

  /** When the dots get merged, the outcome does not depend on the order in
      which they were added. */
  lemma {:induction false} MergeDotsOrderIndependent(a: ChartItem, b: ChartItem)
    requires a.time == b.time && multiset(a.dots) == multiset(b.dots)
    requires SingleDevice(a) && SingleDevice(b)
    requires var defaultDots := Seqs.Filter(a.dots, IsDefault);
      |defaultDots| > 0 || (|Seqs.Filter(a.dots, HasWriteSibling)| > 0 && |Seqs.Filter(a.dots, IsWrite)| > 0)
    ensures MergeDots(a) == MergeDots(b)
  {
    FilterSameMultiset(a.dots, b.dots, IsDefault);
    FilterSameMultiset(a.dots, b.dots, HasWriteSibling);
    FilterSameMultiset(a.dots, b.dots, IsWrite);
    assert |a.dots| > 0 && |b.dots| > 0;
    assert b.dots[0] in multiset(a.dots);
    assert b.dots[0].device == a.dots[0].device;
    var da, db := Seqs.Filter(a.dots, IsDefault), Seqs.Filter(b.dots, IsDefault);
    if |da| > 0 {
      FilterHeadDevice(a, IsDefault);
      FilterHeadDevice(b, IsDefault);
      SameTotalDot(da, db, false, false);
    } else {
      var ra, rb := Seqs.Filter(a.dots, HasWriteSibling), Seqs.Filter(b.dots, HasWriteSibling);
      var wa, wb := Seqs.Filter(a.dots, IsWrite), Seqs.Filter(b.dots, IsWrite);
      FilterHeadDevice(a, HasWriteSibling);
      FilterHeadDevice(b, HasWriteSibling);
      FilterHeadDevice(a, IsWrite);
      FilterHeadDevice(b, IsWrite);
      SameTotalDot(ra, rb, true, false);
      SameTotalDot(wa, wb, false, true);
    }
  }

  /** Read/write pairs (10, -5) and (3, -2), added in any order, merge into a
      read total of 13 and a write total of -7. */
  lemma {:induction false} MergeExample(dev: Device, color: string, time: string)
    ensures var item := AddDots(NewItem(time), [
        Dot(dev, "a", color, 10.0, true, false), Dot(dev, "a", color, -5.0, false, true),
        Dot(dev, "b", color, 3.0, true, false), Dot(dev, "b", color, -2.0, false, true)]);
      var merged := MergeDots(item);
      |merged.dots| == 2 && merged.dots[0].value == 13.0 && merged.dots[1].value == -7.0 &&
      HasWriteSibling(merged.dots[0]) && IsWrite(merged.dots[1]) && merged.time == time
  {
    var r10, w5 := Dot(dev, "a", color, 10.0, true, false), Dot(dev, "a", color, -5.0, false, true);
    var r3, w2 := Dot(dev, "b", color, 3.0, true, false), Dot(dev, "b", color, -2.0, false, true);
    var ds := [r10, w5, r3, w2];
    var item := AddDots(NewItem(time), ds);
    assert multiset(item.dots) == multiset(ds);
    MergeAnyOrder(r10, w5, r3, w2, item);
  }

  lemma {:induction false} MergeAnyOrder(r10: Dot, w5: Dot, r3: Dot, w2: Dot, item: ChartItem)
    requires r10.read && !r10.write && r3.read && !r3.write
    requires !w5.read && w5.write && !w2.read && w2.write
    requires r10.value == 10.0 && w5.value == -5.0 && r3.value == 3.0 && w2.value == -2.0
    requires r10.device == w5.device == r3.device == w2.device
    requires multiset(item.dots) == multiset([r10, w5, r3, w2])
    ensures var merged := MergeDots(item);
      |merged.dots| == 2 && merged.dots[0].value == 13.0 && merged.dots[1].value == -7.0 &&
      HasWriteSibling(merged.dots[0]) && IsWrite(merged.dots[1]) && merged.time == item.time
  {
    var plain := ChartItem(item.time, [r10, w5, r3, w2]);
    ExampleFilters(r10, w5, r3, w2);
    assert SingleDevice(plain);
    assert SingleDevice(item) by {
      forall i | 0 <= i < |item.dots| ensures item.dots[i].device == r10.device {
        assert item.dots[i] in multiset(plain.dots);
      }
    }
    MergeDotsOrderIndependent(plain, item);
    PlainExample(r10, w5, r3, w2, item.time);
  }

  lemma {:induction false} PlainExample(r10: Dot, w5: Dot, r3: Dot, w2: Dot, time: string)
    requires r10.read && !r10.write && r3.read && !r3.write
    requires !w5.read && w5.write && !w2.read && w2.write
    requires r10.value == 10.0 && w5.value == -5.0 && r3.value == 3.0 && w2.value == -2.0
    ensures var merged := MergeDots(ChartItem(time, [r10, w5, r3, w2]));
      |merged.dots| == 2 && merged.dots[0].value == 13.0 && merged.dots[1].value == -7.0 &&
      HasWriteSibling(merged.dots[0]) && IsWrite(merged.dots[1]) && merged.time == time
  {
    var plain := ChartItem(time, [r10, w5, r3, w2]);
    ExampleFilters(r10, w5, r3, w2);
    ExampleTotals(r10, w5, r3, w2);
    assert forall i :: 0 <= i < |plain.dots| ==> IsCents(plain.dots[i].value);
    MergeDotsExactSums(plain);
  }

  lemma {:induction false} ExampleFilters(r10: Dot, w5: Dot, r3: Dot, w2: Dot)
    requires r10.read && !r10.write && r3.read && !r3.write
    requires !w5.read && w5.write && !w2.read && w2.write
    ensures Seqs.Filter([r10, w5, r3, w2], IsDefault) == []
    ensures Seqs.Filter([r10, w5, r3, w2], HasWriteSibling) == [r10, r3]
    ensures Seqs.Filter([r10, w5, r3, w2], IsWrite) == [w5, w2]
  {
    ExampleDefaults(r10, w5, r3, w2);
    ExampleReads(r10, w5, r3, w2);
    ExampleWrites(r10, w5, r3, w2);
  }

  lemma {:induction false} ExampleDefaults(r10: Dot, w5: Dot, r3: Dot, w2: Dot)
    requires r10.read && !r10.write && r3.read && !r3.write
    requires !w5.read && w5.write && !w2.read && w2.write
    ensures Seqs.Filter([r10, w5, r3, w2], IsDefault) == []
  {
    var t3 := [w2] + [];
    var t2 := [r3] + t3;
    var t1 := [w5] + t2;
    assert [r10] + t1 == [r10, w5, r3, w2];
    Seqs.FilterCons(w2, [], IsDefault);
    assert Seqs.Filter(t3, IsDefault) == [];
    Seqs.FilterCons(r3, t3, IsDefault);
    assert Seqs.Filter(t2, IsDefault) == [];
    Seqs.FilterCons(w5, t2, IsDefault);
    assert Seqs.Filter(t1, IsDefault) == [];
    Seqs.FilterCons(r10, t1, IsDefault);
  }

  lemma {:induction false} ExampleReads(r10: Dot, w5: Dot, r3: Dot, w2: Dot)
    requires r10.read && !r10.write && r3.read && !r3.write
    requires !w5.read && w5.write && !w2.read && w2.write
    ensures Seqs.Filter([r10, w5, r3, w2], HasWriteSibling) == [r10, r3]
  {
    var t3 := [w2] + [];
    var t2 := [r3] + t3;
    var t1 := [w5] + t2;
    assert [r10] + t1 == [r10, w5, r3, w2];
    Seqs.FilterCons(w2, [], HasWriteSibling);
    assert Seqs.Filter(t3, HasWriteSibling) == [];
    Seqs.FilterCons(r3, t3, HasWriteSibling);
    assert Seqs.Filter(t2, HasWriteSibling) == [r3];
    Seqs.FilterCons(w5, t2, HasWriteSibling);
    assert Seqs.Filter(t1, HasWriteSibling) == [r3];
    Seqs.FilterCons(r10, t1, HasWriteSibling);
  }

  lemma {:induction false} ExampleWrites(r10: Dot, w5: Dot, r3: Dot, w2: Dot)
    requires r10.read && !r10.write && r3.read && !r3.write
    requires !w5.read && w5.write && !w2.read && w2.write
    ensures Seqs.Filter([r10, w5, r3, w2], IsWrite) == [w5, w2]
  {
    var t3 := [w2] + [];
    var t2 := [r3] + t3;
    var t1 := [w5] + t2;
    assert [r10] + t1 == [r10, w5, r3, w2];
    Seqs.FilterCons(w2, [], IsWrite);
    assert Seqs.Filter(t3, IsWrite) == [w2];
    Seqs.FilterCons(r3, t3, IsWrite);
    assert Seqs.Filter(t2, IsWrite) == [w2];
    Seqs.FilterCons(w5, t2, IsWrite);
    assert Seqs.Filter(t1, IsWrite) == [w5, w2];
    Seqs.FilterCons(r10, t1, IsWrite);
  }

  lemma {:induction false} ExampleTotals(r10: Dot, w5: Dot, r3: Dot, w2: Dot)
    requires r10.value == 10.0 && w5.value == -5.0 && r3.value == 3.0 && w2.value == -2.0
    ensures Total([r10, r3]) == 13.0 && Total([w5, w2]) == -7.0
  {
    assert [r10, r3][..1] == [r10];
    assert [w5, w2][..1] == [w5];
    TotalSingleton(r10);
    TotalSingleton(w5);
  }
}
