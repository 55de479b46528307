/** The series handed to a chart: its items in time order, flattened into
    rows keyed `dot-<index>`, plus the lookups the tooltip and the chart key use. */
module Datasets {

  import opened Wrappers
  import opened Devices
  import opened Dots
  import opened Items
  import Seqs
  import Sorting
  import Strings
  import Numerals

  datatype ChartData = ChartData(items: seq<ChartItem>)

  predicate HasItems(cd: ChartData) {
    |cd.items| > 0
  }

  /** One row of plotted data: the item's time and one value per dot position. */
  datatype Row = Row(time: string, values: map<string, real>)

  const DotKeyPrefix: string := "dot-"

  /** The field name of the dot at position `j`. */
  function DotKey(j: nat): (k: string)
    ensures |k| > |DotKeyPrefix| && k[..|DotKeyPrefix|] == DotKeyPrefix
    ensures Numerals.AllDigits(k[|DotKeyPrefix|..]) && Numerals.DigitsValue(k[|DotKeyPrefix|..]) == j
  {
    var k := DotKeyPrefix + Numerals.NatToString(j);
    assert k[|DotKeyPrefix|..] == Numerals.NatToString(j);
    k
  }

  /** Distinct positions get distinct field names, so no dot overwrites another. */
  lemma {:induction false} DotKeyInjective(i: nat, j: nat)
    requires DotKey(i) == DotKey(j)
    ensures i == j
  {
    assert DotKey(i)[|DotKeyPrefix|..] == DotKey(j)[|DotKeyPrefix|..];
  }

  function RowOf(item: ChartItem): (row: Row)
    ensures row.time == item.time
    ensures forall j :: 0 <= j < |item.dots| ==> DotKey(j) in row.values && row.values[DotKey(j)] == item.dots[j].value
    ensures forall k :: k in row.values ==> exists j :: 0 <= j < |item.dots| && k == DotKey(j)
  {
    forall i: nat, j: nat | DotKey(i) == DotKey(j) ensures i == j {
      DotKeyInjective(i, j);
    }
    Row(item.time, map j | 0 <= j < |item.dots| :: DotKey(j) := item.dots[j].value)
  }

  /** One row per item, in item order. */
  function GetData(cd: ChartData): (rows: seq<Row>)
    ensures |rows| == |cd.items|
    ensures forall i :: 0 <= i < |rows| ==> rows[i] == RowOf(cd.items[i])
  {
    Seqs.Map(cd.items, RowOf)
  }

  /** The dots of the first item; a chart with no items has none to sample. */
  function GetDotsSample(cd: ChartData): (r: Option<seq<Dot>>)
    ensures r.Some? <==> HasItems(cd)
    ensures r.Some? ==> r.value == cd.items[0].dots
  {
    if HasItems(cd) then Some(cd.items[0].dots) else None
  }

  /** The first item stamped with `time`, if any. */
  function GetItemByTime(cd: ChartData, time: string): (r: Option<ChartItem>)
    ensures r.Some? ==> r.value in cd.items && r.value.time == time
    ensures r.Some? ==>
      exists i :: 0 <= i < |cd.items| && cd.items[i] == r.value && forall j :: 0 <= j < i ==> cd.items[j].time != time
    ensures r.None? <==> forall it :: it in cd.items ==> it.time != time
  {
    match Seqs.FindIndex(cd.items, (it: ChartItem) => it.time == time)
    case None => None
    case Some(i) => Some(cd.items[i])
  }

  /** "<device name>-<dot name>". */
  function DotLabel(d: Dot): string {
    d.device.name + "-" + d.name
  }

  /** The sorted labels of the sample dots. */
  function SortedLabels(dots: seq<Dot>): (labels: seq<string>)
    ensures |labels| == |dots|
    ensures multiset(labels) == multiset(Seqs.Map(dots, DotLabel))
    ensures Sorting.SortedBy(labels, Strings.StrLe)
  {
    Strings.StrLeIsTotalOrder();
    Sorting.SortBySorted(Seqs.Map(dots, DotLabel), Strings.StrLe);
    Sorting.SortBy(Seqs.Map(dots, DotLabel), Strings.StrLe)
  }

  /** The sample's labels, sorted in code-point order and joined by "-". */
  function GetUniqueKey(cd: ChartData): (r: Option<string>)
    ensures r.Some? <==> HasItems(cd)
    ensures r.Some? ==> r.value == Strings.Join(SortedLabels(cd.items[0].dots), "-")
  {
    match GetDotsSample(cd)
    case None => None
    case Some(dots) => Some(Strings.Join(SortedLabels(dots), "-"))
  }

  /** The key does not depend on the order of the sample's dots: two charts
      whose first items hold the same dots in any order get the same key. */
  lemma {:induction false} UniqueKeyIgnoresDotOrder(a: ChartData, b: ChartData)
    requires HasItems(a) && HasItems(b)
    requires multiset(a.items[0].dots) == multiset(b.items[0].dots)
    ensures GetUniqueKey(a) == GetUniqueKey(b)
  {
    Strings.StrLeIsTotalOrder();
    Seqs.MapPermutation(a.items[0].dots, b.items[0].dots, DotLabel);
    Sorting.SortByDecidesPermutation(
      Seqs.Map(a.items[0].dots, DotLabel), Seqs.Map(b.items[0].dots, DotLabel), Strings.StrLe);
  }

  /** Items built by adding the same dots in different orders give charts
      with the same key. */
  lemma {:induction false} UniqueKeyIgnoresInsertionOrder(time: string, xs: seq<Dot>, ys: seq<Dot>, rest: seq<ChartItem>)
    requires multiset(xs) == multiset(ys)
    ensures GetUniqueKey(ChartData([AddDots(NewItem(time), xs)] + rest))
      == GetUniqueKey(ChartData([AddDots(NewItem(time), ys)] + rest))
  {
    var a := ChartData([AddDots(NewItem(time), xs)] + rest);
    var b := ChartData([AddDots(NewItem(time), ys)] + rest);
    UniqueKeyIgnoresDotOrder(a, b);
  }
}
