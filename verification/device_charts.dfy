/** Building a device's chart items from a snapshot: one dot per container
    for CPU and memory, a read dot and a negated write dot for disk and
    network, in split, combined or merged (overview) form. */
module DeviceCharts {

  import opened Wrappers
  import opened Containers
  import opened Metrics
  import opened Snapshots
  import opened Devices
  import opened Dots
  import opened Items
  import Sorting
  import Seqs
  import Arith

  /** The container's colour when container colours are in use, else the device's. */
  function DotColor(d: Device, cs: ContainerStats, useContainerColors: bool): string {
    if useContainerColors then cs.container.color else d.color
  }

  /** Dots one container contributes: 1 for CPU and memory, 2 for disk and
      network, none for any other key. */
  function DotsPerContainer(d: Device): nat {
    if IsCpu(d) || IsMemory(d) then 1 else if IsPaired(d) then 2 else 0
  }

  /** The devices whose values go through the unit conversion. */
  predicate ConvertsUnits(d: Device) {
    IsMemory(d) || IsPaired(d)
  }

  /** The device fails exactly when it converts units and its unit is unknown. */
  predicate BadUnit(d: Device) {
    ConvertsUnits(d) && d.unit !in DisplayUnits
  }

  function ReadBytes(d: Device, cs: ContainerStats): real {
    if IsDisk(d) then cs.diskRead else cs.networkRead
  }

  function WriteBytes(d: Device, cs: ContainerStats): real {
    if IsDisk(d) then cs.diskWrite else cs.networkWrite
  }

  /** The dots one container's record contributes to this device's chart. */
  function MakeChartDots(d: Device, cs: ContainerStats, useContainerColors: bool): (r: Result<seq<Dot>, Error>)
    ensures r.Failure? <==> BadUnit(d)
    ensures r.Failure? ==> r.error == UnknownUnit(d.unit)
    ensures r.Success? ==> |r.value| == DotsPerContainer(d)
    ensures r.Success? ==> forall i :: 0 <= i < |r.value| ==>
      r.value[i].device == d && r.value[i].name == cs.container.name &&
      r.value[i].color == DotColor(d, cs, useContainerColors)
    ensures IsCpu(d) ==> r.Success? && IsDefault(r.value[0]) && r.value[0].value == Round2(cs.cpuPercent)
    ensures IsMemory(d) && r.Success? ==>
      IsDefault(r.value[0]) && r.value[0].value == Round2(cs.memoryUsage / Divisor(d.unit))
    ensures IsPaired(d) && r.Success? ==>
      && HasWriteSibling(r.value[0]) && r.value[0].value == Round2(ReadBytes(d, cs) / Divisor(d.unit))
      && IsWrite(r.value[1]) && r.value[1].value == Round2(-(WriteBytes(d, cs) / Divisor(d.unit)))
    ensures IsPaired(d) && r.Success? && NonNegative(cs) ==> r.value[0].value >= 0.0 && r.value[1].value <= 0.0
  {
    var name := cs.container.name;
    var color := DotColor(d, cs, useContainerColors);
    if IsCpu(d) then
      Success([MakeDot(d, name, color, cs.cpuPercent, false, false)])
    else if IsMemory(d) then
      var v :- ConvertFromBytesToSelectedUnit(d, cs.memoryUsage);
      Success([MakeDot(d, name, color, v, false, false)])
    else if IsPaired(d) then
      var readValue :- ConvertFromBytesToSelectedUnit(d, ReadBytes(d, cs));
      var writeValue := ConvertFromBytesToSelectedUnit(d, WriteBytes(d, cs)).value;
      Round2KeepsSign(readValue);
      Round2KeepsSign(-writeValue);
      Success([MakeDot(d, name, color, readValue, true, false), MakeDot(d, name, color, -writeValue, false, true)])
    else
      Success([])
  }

  /** A container's own chart item: its record's time and its dots, largest first. */
  function MakeSplitChartItem(d: Device, cs: ContainerStats, useContainerColors: bool): (r: Result<ChartItem, Error>)
    ensures r.Failure? <==> BadUnit(d)
    ensures r.Success? ==> r.value.time == cs.time
    ensures r.Success? ==> multiset(r.value.dots) == multiset(MakeChartDots(d, cs, useContainerColors).value)
    ensures r.Success? ==> |r.value.dots| == DotsPerContainer(d)
    ensures r.Success? ==> Sorting.SortedBy(r.value.dots, ValueDesc())
  {
    var dots :- MakeChartDots(d, cs, useContainerColors);
    var item := AddDots(NewItem(cs.time), dots);
    assert |item.dots| == |multiset(item.dots)| == |dots|;
    Success(item)
  }

  /** The dots of every listed container, in list order, each container
      joined to its record by name; the first failure aborts. */
  function CombinedDots(d: Device, s: Stats, containers: seq<Container>, useContainerColors: bool): (r: Result<seq<Dot>, Error>)
    ensures r.Failure? <==> |containers| > 0 && BadUnit(d)
    ensures r.Success? ==> |r.value| == DotsPerContainer(d) * |containers|
    decreases |containers|
  {
    if |containers| == 0 then Success([])
    else
      var first :- MakeChartDots(d, GetContainerStats(s, containers[0]), useContainerColors);
      var rest := CombinedDots(d, s, containers[1..], useContainerColors).value;
      Arith.MulStep(DotsPerContainer(d), |containers|);
      Success(first + rest)
  }

  /** All listed containers on one chart item, stamped with the snapshot's time. */
  function MakeCombinedChartItem(d: Device, s: Stats, containers: seq<Container>, useContainerColors: bool): (r: Result<ChartItem, Error>)
    ensures r.Failure? <==> |containers| > 0 && BadUnit(d)
    ensures r.Success? ==> r.value.time == s.time
    ensures r.Success? ==> multiset(r.value.dots) == multiset(CombinedDots(d, s, containers, useContainerColors).value)
    ensures r.Success? ==> |r.value.dots| == DotsPerContainer(d) * |containers|
    ensures r.Success? ==> Sorting.SortedBy(r.value.dots, ValueDesc())
  {
    var dots :- CombinedDots(d, s, containers, useContainerColors);
    var item := AddDots(NewItem(s.time), dots);
    assert |item.dots| == |multiset(item.dots)| == |dots|;
    Success(item)
  }

  /** The combined item collapsed into totals. */
  function MakeOverviewChartItem(d: Device, s: Stats, containers: seq<Container>, useContainerColors: bool): (r: Result<ChartItem, Error>)
    ensures r.Failure? <==> |containers| > 0 && BadUnit(d)
    ensures r.Success? ==> r.value.time == s.time
    ensures r.Success? ==> r.value == MergeDots(MakeCombinedChartItem(d, s, containers, useContainerColors).value)
  {
    var item :- MakeCombinedChartItem(d, s, containers, useContainerColors);
    Success(MergeDots(item))
  }

  /** The rounded CPU percentages of the listed containers, summed. */
  function CpuSum(s: Stats, containers: seq<Container>): real
    decreases |containers|
  {
    if |containers| == 0 then 0.0
    else Round2(GetContainerStats(s, containers[0]).cpuPercent) + CpuSum(s, containers[1..])
  }

  /** Non-empty list: the combined dots are the first container's dots
      followed by the rest's. */
  lemma {:induction false} CombinedDotsCons(d: Device, s: Stats, containers: seq<Container>, ucc: bool)
    requires |containers| > 0 && CombinedDots(d, s, containers, ucc).Success?
    ensures MakeChartDots(d, GetContainerStats(s, containers[0]), ucc).Success?
    ensures CombinedDots(d, s, containers[1..], ucc).Success?
    ensures CombinedDots(d, s, containers, ucc).value
      == MakeChartDots(d, GetContainerStats(s, containers[0]), ucc).value + CombinedDots(d, s, containers[1..], ucc).value
  {
  }

  /** The dots of `containers[i]` form the `i`-th block of the combined
      dots: containers keep their order, one block each. */
  lemma {:induction false} CombinedDotsBlock(d: Device, s: Stats, containers: seq<Container>, ucc: bool, i: nat)
    requires i < |containers| && CombinedDots(d, s, containers, ucc).Success?
    ensures Seqs.BlockIs(CombinedDots(d, s, containers, ucc).value, DotsPerContainer(d), i, MakeChartDots(d, GetContainerStats(s, containers[i]), ucc).value)
    decreases i
  {
    CombinedDotsCons(d, s, containers, ucc);
    var first := MakeChartDots(d, GetContainerStats(s, containers[0]), ucc).value;
    var rest := CombinedDots(d, s, containers[1..], ucc).value;
    var k := DotsPerContainer(d);
    assert |rest| == (|containers| - 1) * k;
    Seqs.BlockOfCons(first, rest, k, |containers| - 1, i);
    if i > 0 {
      CombinedDotsBlock(d, s, containers[1..], ucc, i - 1);
      assert containers[1..][i - 1] == containers[i];
    }
  }

  /** Every container's dots sit in its own block, in list order. */
  lemma {:induction false} CombinedDotsBlocks(d: Device, s: Stats, containers: seq<Container>, ucc: bool)
    ensures var r := CombinedDots(d, s, containers, ucc);
      r.Success? ==> forall i :: 0 <= i < |containers| ==>
        Seqs.BlockIs(r.value, DotsPerContainer(d), i, MakeChartDots(d, GetContainerStats(s, containers[i]), ucc).value)
  {
    var r := CombinedDots(d, s, containers, ucc);
    if r.Success? {
      forall i | 0 <= i < |containers|
        ensures Seqs.BlockIs(r.value, DotsPerContainer(d), i, MakeChartDots(d, GetContainerStats(s, containers[i]), ucc).value)
      {
        CombinedDotsBlock(d, s, containers, ucc, i);
      }
    }
  }

  /** For CPU every combined dot is a default dot of the device, and the dots
      add up to the sum of the rounded percentages. */
  lemma {:induction false} CpuCombinedDots(d: Device, s: Stats, containers: seq<Container>, ucc: bool)
    requires IsCpu(d)
    ensures CombinedDots(d, s, containers, ucc).Success?
    ensures var dots := CombinedDots(d, s, containers, ucc).value;
      && (forall i :: 0 <= i < |dots| ==> IsDefault(dots[i]) && dots[i].device == d && IsCents(dots[i].value))
      && Total(dots) == CpuSum(s, containers)
    decreases |containers|
  {
    if |containers| > 0 {
      var first := MakeChartDots(d, GetContainerStats(s, containers[0]), ucc).value;
      var rest := CombinedDots(d, s, containers[1..], ucc).value;
      CpuCombinedDots(d, s, containers[1..], ucc);
      assert CombinedDots(d, s, containers, ucc).value == first + rest;
      TotalConcat(first, rest);
      TotalSingleton(first[0]);
      assert first == [first[0]];
      assert Total(first) + Total(rest) == Total(rest) + Total(first);
    }
  }

  /** The CPU overview of a non-empty container list is a single default dot
      named "<device> total", in the device's colour, valued at the sum of the
      containers' rounded percentages. */
  lemma {:induction false} CpuOverviewIsSum(d: Device, s: Stats, containers: seq<Container>, ucc: bool)
    requires IsCpu(d) && |containers| > 0
    ensures var r := MakeOverviewChartItem(d, s, containers, ucc);
      && r.Success? && |r.value.dots| == 1 && IsDefault(r.value.dots[0])
      && r.value.dots[0].name == d.name + " total" && r.value.dots[0].color == d.color
      && r.value.dots[0].value == CpuSum(s, containers)
  {
    CpuCombinedDots(d, s, containers, ucc);
    var dots := CombinedDots(d, s, containers, ucc).value;
    var item := MakeCombinedChartItem(d, s, containers, ucc).value;
    assert |item.dots| == |containers| > 0;
    forall i | 0 <= i < |item.dots|
      ensures IsDefault(item.dots[i]) && item.dots[i].device == d && IsCents(item.dots[i].value)
    {
      assert item.dots[i] in multiset(dots);
    }
    Seqs.FilterAll(item.dots, IsDefault);
    MergeDotsExactSums(item);
    TotalPermutation(item.dots, dots);
  }
}
