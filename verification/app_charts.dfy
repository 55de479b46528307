/** Which charts the dashboard draws: one series per device (overview and
    combine) or per device and container (split), built over the window of
    snapshots, limited to twelve non-empty charts, with a one-time warning
    when the limit cuts charts off. */
module Charting {

  import opened Wrappers
  import opened Containers
  import opened Snapshots
  import opened Window
  import opened Devices
  import opened Items
  import opened DeviceCharts
  import opened Datasets
  import Seqs

  const MaxCharts: nat := 12
  const MaxStackItems: nat := 60

  /** The dashboard's window starts empty with room for sixty snapshots, so
      whatever insertions follow it never holds more than sixty. */
  lemma {:induction false} DashboardWindowBound(ops: seq<Insertion>)
    ensures ApplyAll(Empty(MaxStackItems), ops).maxSize == MaxStackItems
    ensures |ApplyAll(Empty(MaxStackItems), ops).stats| <= MaxStackItems
  {
    BoundHolds(Empty(MaxStackItems), ops);
  }

  /** Fed snapshots with distinct times, the dashboard's window holds the
      last sixty of them (all of them while fewer), oldest first. */
  lemma {:induction false} DashboardWindowSlides(xs: seq<Stats>)
    requires DistinctTimes(xs)
    ensures var w := AddAllUnique(Empty(MaxStackItems), xs);
      && |w.stats| == (if |xs| < MaxStackItems then |xs| else MaxStackItems)
      && w.stats == xs[|xs| - |w.stats|..]
  {
    SlidingWindow(MaxStackItems, xs);
  }

  /** The four devices the dashboard offers, with their display units; the
      colours are the names of the material palette shades. */
  const AppDevices: seq<Device> := [
    Device("CPU", "cpu", "%", "blue[400]"),
    Device("Memory", "memory", "MB", "teal[400]"),
    Device("Disk", "disk", "MB", "deepPurple[300]"),
    Device("Network", "network", "MB", "lime[800]")
  ]

  /** None of the offered devices has a unit the conversion rejects, and
      each contributes at least one dot per container. */
  lemma {:induction false} AppDevicesConvert()
    ensures forall i :: 0 <= i < |AppDevices| ==> !BadUnit(AppDevices[i])
    ensures !AnyBadUnit(AppDevices)
    ensures forall i :: 0 <= i < |AppDevices| ==> DotsPerContainer(AppDevices[i]) >= 1
    ensures forall i, j :: 0 <= i < j < |AppDevices| ==> AppDevices[i].key != AppDevices[j].key
  {
    assert "MB" in DisplayUnits;
  }

  datatype Mode = Overview | Combine | Split

  /** A chart handed to the chart factory: its device, its series, and
      whether it is drawn as a combined (per-container) chart. */
  datatype Chart = Chart(device: Device, data: ChartData, combined: bool)

  /** The series of one container on one device, one item per snapshot. */
  function SplitSeries(d: Device, c: Container, stack: seq<Stats>, ucc: bool): (r: Result<ChartData, Error>)
    ensures r.Failure? <==> |stack| > 0 && BadUnit(d)
    ensures r.Success? ==> |r.value.items| == |stack|
    ensures r.Success? ==> forall i :: 0 <= i < |stack| ==>
      r.value.items[i] == MakeSplitChartItem(d, GetContainerStats(stack[i], c), ucc).value
  {
    var items :- Seqs.MapResult(stack, (s: Stats) => MakeSplitChartItem(d, GetContainerStats(s, c), ucc));
    Success(ChartData(items))
  }

  /** One snapshot's item for all selected containers: combined, or merged
      into totals for the overview. */
  function GroupItem(d: Device, containers: seq<Container>, ucc: bool, overview: bool, s: Stats): (r: Result<ChartItem, Error>)
    ensures r.Failure? <==> |containers| > 0 && BadUnit(d)
    ensures r.Success? && overview ==> r == MakeOverviewChartItem(d, s, containers, ucc)
    ensures r.Success? && !overview ==> r == MakeCombinedChartItem(d, s, containers, ucc)
  {
    if overview then MakeOverviewChartItem(d, s, containers, ucc) else MakeCombinedChartItem(d, s, containers, ucc)
  }

  /** The series of all selected containers on one device, one item per
      snapshot. */
  function GroupSeries(d: Device, containers: seq<Container>, stack: seq<Stats>, ucc: bool, overview: bool): (r: Result<ChartData, Error>)
    ensures r.Failure? <==> |stack| > 0 && |containers| > 0 && BadUnit(d)
    ensures r.Success? ==> |r.value.items| == |stack|
    ensures r.Success? ==> forall i :: 0 <= i < |stack| ==>
      GroupItem(d, containers, ucc, overview, stack[i]) == Success(r.value.items[i])
  {
    var items :- Seqs.MapResult(stack, (s: Stats) => GroupItem(d, containers, ucc, overview, s));
    Success(ChartData(items))
  }

  /** Charts a device contributes in a mode: one per container when split,
      one otherwise. */
  function PerDevice(mode: Mode, containers: seq<Container>): nat {
    if mode == Split then |containers| else 1
  }

  /** One split chart per container, in container order. */
  function SplitCharts(d: Device, containers: seq<Container>, stack: seq<Stats>, ucc: bool): (r: Result<seq<Chart>, Error>)
    ensures r.Failure? <==> |containers| > 0 && |stack| > 0 && BadUnit(d)
    ensures r.Success? ==> |r.value| == |containers|
    ensures r.Success? ==> forall i :: 0 <= i < |containers| ==>
      SplitSeries(d, containers[i], stack, ucc) == Success(r.value[i].data) && r.value[i] == Chart(d, r.value[i].data, false)
    decreases |containers|
  {
    if |containers| == 0 then Success([])
    else
      var first := SplitSeries(d, containers[0], stack, ucc);
      if first.Failure? then Failure(first.error)
      else
        var rest := SplitCharts(d, containers[1..], stack, ucc).value;
        SplitChartsStep(d, containers, stack, ucc, first.value, rest);
        Success([Chart(d, first.value, false)] + rest)
  }

  lemma {:induction false} SplitChartsStep(d: Device, containers: seq<Container>, stack: seq<Stats>, ucc: bool, data: ChartData, rest: seq<Chart>)
    requires |containers| > 0 && SplitSeries(d, containers[0], stack, ucc) == Success(data)
    requires |rest| == |containers| - 1
    requires forall i :: 0 <= i < |rest| ==>
      SplitSeries(d, containers[1..][i], stack, ucc) == Success(rest[i].data) && rest[i] == Chart(d, rest[i].data, false)
    ensures forall i :: 0 <= i < |containers| ==>
      SplitSeries(d, containers[i], stack, ucc) == Success(([Chart(d, data, false)] + rest)[i].data)
      && ([Chart(d, data, false)] + rest)[i] == Chart(d, ([Chart(d, data, false)] + rest)[i].data, false)
  {
    var all := [Chart(d, data, false)] + rest;
    forall i | 0 <= i < |containers|
      ensures SplitSeries(d, containers[i], stack, ucc) == Success(all[i].data) && all[i] == Chart(d, all[i].data, false)
    {
      if i > 0 {
        assert containers[i] == containers[1..][i - 1];
        assert all[i] == rest[i - 1];
      }
    }
  }

  /** The charts one device contributes in a mode, in container order. */
  function ChartsOfDevice(mode: Mode, d: Device, containers: seq<Container>, stack: seq<Stats>, ucc: bool): (r: Result<seq<Chart>, Error>)
    ensures r.Failure? <==> |containers| > 0 && |stack| > 0 && BadUnit(d)
    ensures r.Success? ==> |r.value| == PerDevice(mode, containers)
    ensures r.Success? ==> forall i :: 0 <= i < |r.value| ==>
      r.value[i].device == d && |r.value[i].data.items| == |stack| && (r.value[i].combined <==> mode == Combine)
  {
    match mode
    case Split => SplitCharts(d, containers, stack, ucc)
    case Combine =>
      var data :- GroupSeries(d, containers, stack, ucc, false);
      Success([Chart(d, data, true)])
    case Overview =>
      var data :- GroupSeries(d, containers, stack, ucc, true);
      Success([Chart(d, data, false)])
  }

  /** Some device in the list has a unit the conversion rejects. */
  predicate AnyBadUnit(devices: seq<Device>) {
    exists i :: 0 <= i < |devices| && BadUnit(devices[i])
  }

  lemma {:induction false} AnyBadUnitCons(devices: seq<Device>)
    requires |devices| > 0
    ensures AnyBadUnit(devices) <==> BadUnit(devices[0]) || AnyBadUnit(devices[1..])
  {
    if AnyBadUnit(devices[1..]) {
      var i :| 0 <= i < |devices| - 1 && BadUnit(devices[1..][i]);
      assert devices[1..][i] == devices[i + 1];
    }
    if AnyBadUnit(devices) && !BadUnit(devices[0]) {
      var i :| 0 <= i < |devices| && BadUnit(devices[i]);
      assert devices[1..][i - 1] == devices[i];
    }
  }

  /** Every chart the selected devices produce, device by device; the first
      failure aborts the whole render. */
  function Candidates(mode: Mode, devices: seq<Device>, containers: seq<Container>, stack: seq<Stats>, ucc: bool): (r: Result<seq<Chart>, Error>)
    ensures r.Failure? <==> |containers| > 0 && |stack| > 0 && AnyBadUnit(devices)
    ensures r.Success? ==> |r.value| == |devices| * PerDevice(mode, containers)
    ensures r.Success? ==> forall i :: 0 <= i < |r.value| ==>
      r.value[i].device in devices && |r.value[i].data.items| == |stack|
    decreases |devices|
  {
    if |devices| == 0 then Success([])
    else
      AnyBadUnitCons(devices);
      var first := ChartsOfDevice(mode, devices[0], containers, stack, ucc);
      var rest := Candidates(mode, devices[1..], containers, stack, ucc);
      if first.Failure? then Failure(first.error)
      else if rest.Failure? then Failure(rest.error)
      else
        CandidatesStep(devices, containers, stack, first.value, rest.value, PerDevice(mode, containers));
        Success(first.value + rest.value)
  }

  /** The charts of the first device followed by those of the rest. */
  lemma {:induction false} CandidatesStep(devices: seq<Device>, containers: seq<Container>, stack: seq<Stats>,
                                          first: seq<Chart>, rest: seq<Chart>, per: nat)
    requires |devices| > 0
    requires |first| == per && |rest| == (|devices| - 1) * per
    requires forall i :: 0 <= i < |first| ==> first[i].device == devices[0] && |first[i].data.items| == |stack|
    requires forall i :: 0 <= i < |rest| ==> rest[i].device in devices[1..] && |rest[i].data.items| == |stack|
    ensures |first + rest| == |devices| * per
    ensures forall i :: 0 <= i < |first + rest| ==> (first + rest)[i].device in devices && |(first + rest)[i].data.items| == |stack|
  {
    assert (|devices| - 1) * per + per == |devices| * per;
    forall i | 0 <= i < |first + rest|
      ensures (first + rest)[i].device in devices && |(first + rest)[i].data.items| == |stack|
    {
      if i >= |first| {
        assert (first + rest)[i] == rest[i - |first|];
        var j :| 0 <= j < |devices| - 1 && devices[1..][j] == rest[i - |first|].device;
        assert devices[j + 1] == devices[1..][j];
      }
    }
  }

  /** Non-empty device list: the candidates are the first device's charts
      followed by the rest's. */
  lemma {:induction false} CandidatesCons(mode: Mode, devices: seq<Device>, containers: seq<Container>, stack: seq<Stats>, ucc: bool)
    requires |devices| > 0 && Candidates(mode, devices, containers, stack, ucc).Success?
    ensures ChartsOfDevice(mode, devices[0], containers, stack, ucc).Success?
    ensures Candidates(mode, devices[1..], containers, stack, ucc).Success?
    ensures Candidates(mode, devices, containers, stack, ucc).value
      == ChartsOfDevice(mode, devices[0], containers, stack, ucc).value + Candidates(mode, devices[1..], containers, stack, ucc).value
  {
  }

  /** The charts of `devices[i]` form the `i`-th block of the candidates:
      devices keep their order, one block of equal size each. */
  lemma {:induction false} CandidatesBlock(mode: Mode, devices: seq<Device>, containers: seq<Container>, stack: seq<Stats>, ucc: bool, i: nat)
    requires i < |devices| && Candidates(mode, devices, containers, stack, ucc).Success?
    ensures Seqs.BlockIs(Candidates(mode, devices, containers, stack, ucc).value, PerDevice(mode, containers), i,
                         ChartsOfDevice(mode, devices[i], containers, stack, ucc).value)
    decreases i
  {
    CandidatesCons(mode, devices, containers, stack, ucc);
    var first := ChartsOfDevice(mode, devices[0], containers, stack, ucc).value;
    var rest := Candidates(mode, devices[1..], containers, stack, ucc).value;
    var p := PerDevice(mode, containers);
    assert |rest| == (|devices| - 1) * p;
    Seqs.BlockOfCons(first, rest, p, |devices| - 1, i);
    if i > 0 {
      CandidatesBlock(mode, devices[1..], containers, stack, ucc, i - 1);
      assert devices[1..][i - 1] == devices[i];
    }
  }

  /** Every device's charts sit in their own block, in device order. */
  lemma {:induction false} CandidatesBlocks(mode: Mode, devices: seq<Device>, containers: seq<Container>, stack: seq<Stats>, ucc: bool)
    ensures var r := Candidates(mode, devices, containers, stack, ucc);
      r.Success? ==> forall i :: 0 <= i < |devices| ==>
        Seqs.BlockIs(r.value, PerDevice(mode, containers), i, ChartsOfDevice(mode, devices[i], containers, stack, ucc).value)
  {
    var r := Candidates(mode, devices, containers, stack, ucc);
    if r.Success? {
      forall i | 0 <= i < |devices|
        ensures Seqs.BlockIs(r.value, PerDevice(mode, containers), i, ChartsOfDevice(mode, devices[i], containers, stack, ucc).value)
      {
        CandidatesBlock(mode, devices, containers, stack, ucc, i);
      }
    }
  }

  predicate Drawable(c: Chart) {
    HasItems(c.data)
  }

  /** The candidates that have something to draw, in order. */
  function NonEmpty(charts: seq<Chart>): (r: seq<Chart>)
    ensures |r| <= |charts|
    ensures forall c :: c in r <==> c in charts && Drawable(c)
  {
    Seqs.Filter(charts, Drawable)
  }

  function Min(a: nat, b: nat): nat {
    if a <= b then a else b
  }

  /** The drawable charts of a prefix grow by the next candidate exactly
      when it is drawable. */
  lemma {:induction false} NonEmptyStep(candidates: seq<Chart>, i: nat)
    requires i < |candidates|
    ensures NonEmpty(candidates[..i + 1]) ==
      NonEmpty(candidates[..i]) + if Drawable(candidates[i]) then [candidates[i]] else []
  {
    assert candidates[..i + 1] == candidates[..i] + [candidates[i]];
    Seqs.FilterConcat(candidates[..i], [candidates[i]], Drawable);
    Seqs.FilterOne(candidates[i], Drawable);
  }

  /** Capping a list that grows by one: the new element is shown while
      there is room, and the shown prefix stays as it was otherwise. */
  lemma {:induction false} CapStep(before: seq<Chart>, x: Chart)
    ensures (before + [x])[..Min(|before| + 1, MaxCharts)] ==
      if |before| < MaxCharts then before[..Min(|before|, MaxCharts)] + [x] else before[..Min(|before|, MaxCharts)]
  {
  }

  /** The render loop's counter: the first twelve drawable charts are shown;
      any further drawable chart sets the limit flag. */
  method CapCharts(candidates: seq<Chart>) returns (shown: seq<Chart>, limitReached: bool)
    ensures shown == NonEmpty(candidates)[..Min(|NonEmpty(candidates)|, MaxCharts)]
    ensures limitReached <==> |NonEmpty(candidates)| > MaxCharts
  {
    var count := 0;
    shown, limitReached := [], false;
    var i := 0;
    while i < |candidates|
      invariant 0 <= i <= |candidates|
      invariant count == |NonEmpty(candidates[..i])|
      invariant shown == NonEmpty(candidates[..i])[..Min(count, MaxCharts)]
      invariant limitReached <==> count > MaxCharts
    {
      var chart := candidates[i];
      NonEmptyStep(candidates, i);
      if Drawable(chart) {
        CapStep(NonEmpty(candidates[..i]), chart);
        if count < MaxCharts {
          shown := shown + [chart];
        } else {
          limitReached := true;
        }
        count := count + 1;
      }
      i := i + 1;
    }
    assert candidates[..i] == candidates;
  }

  /** The warning flag: a toast when the limit is reached and no warning was
      shown yet; once set, the flag is never cleared. */
  function WarningStep(warningShown: bool, limitReached: bool): (r: (bool, bool))
    ensures r.0 ==> !warningShown && r.1
    ensures r.1 <==> warningShown || limitReached
    ensures r.0 <==> r.1 && !warningShown
  {
    (limitReached && !warningShown, warningShown || limitReached)
  }

  /** Toasts raised over a run of renders whose limit flags are `limits`. */
  function Toasts(warningShown: bool, limits: seq<bool>): nat
    decreases |limits|
  {
    if |limits| == 0 then 0
    else
      var (toast, shown') := WarningStep(warningShown, limits[0]);
      (if toast then 1 else 0) + Toasts(shown', limits[1..])
  }

  /** The warning is raised at most once per session: once, exactly when it
      was not shown yet and some render reached the limit. */
  lemma {:induction false} WarnsAtMostOnce(warningShown: bool, limits: seq<bool>)
    ensures Toasts(warningShown, limits) <= 1
    ensures Toasts(warningShown, limits) == 1 <==> !warningShown && true in limits
    decreases |limits|
  {
    if |limits| > 0 {
      var shown' := WarningStep(warningShown, limits[0]).1;
      WarnsAtMostOnce(shown', limits[1..]);
      assert limits == [limits[0]] + limits[1..];
      if shown' {
        NoToastOnceShown(limits[1..]);
      }
    }
  }

  lemma {:induction false} NoToastOnceShown(limits: seq<bool>)
    ensures Toasts(true, limits) == 0
    decreases |limits|
  {
    if |limits| > 0 {
      NoToastOnceShown(limits[1..]);
    }
  }

  /** What one render leaves behind: nothing when frozen, otherwise the
      charts to draw, the new warning flag and whether a toast was raised. */
  datatype Outcome = Unchanged | Drawn(charts: seq<Chart>, warningShown: bool, toast: bool)

  /** The chart effect of the dashboard. */
  method RenderCharts(frozen: bool, mode: Mode, devices: seq<Device>, selected: seq<Container>, stack: StatsStack, ucc: bool, warningShown: bool)
    returns (r: Result<Outcome, Error>)
    ensures frozen ==> r == Success(Unchanged)
    ensures !frozen && |selected| == 0 ==> r == Success(Drawn([], warningShown, false))
    ensures !frozen && |selected| > 0 ==>
      (r.Failure? <==> |stack.stats| > 0 && AnyBadUnit(devices))
    ensures !frozen && |selected| > 0 && r.Success? ==>
      var all := NonEmpty(Candidates(mode, devices, selected, stack.stats, ucc).value);
      && r.value.Drawn?
      && r.value.charts == all[..Min(|all|, MaxCharts)]
      && (r.value.warningShown <==> warningShown || |all| > MaxCharts)
      && (r.value.toast <==> !warningShown && |all| > MaxCharts)
  {
    if frozen {
      return Success(Unchanged);
    }
    if |selected| == 0 {
      return Success(Drawn([], warningShown, false));
    }
    var candidates := Candidates(mode, devices, selected, stack.stats, ucc);
    if candidates.Failure? {
      return Failure(candidates.error);
    }
    var shown, limitReached := CapCharts(candidates.value);
    var (toast, shown') := WarningStep(warningShown, limitReached);
    r := Success(Drawn(shown, shown', toast));
  }

  /** Every candidate is drawable when the window holds a snapshot, and none
      is when it is empty. */
  lemma {:induction false} DrawableIffSnapshots(mode: Mode, devices: seq<Device>, containers: seq<Container>, stack: seq<Stats>, ucc: bool)
    requires Candidates(mode, devices, containers, stack, ucc).Success?
    ensures |NonEmpty(Candidates(mode, devices, containers, stack, ucc).value)| ==
      if |stack| > 0 then |devices| * PerDevice(mode, containers) else 0
  {
    var cs := Candidates(mode, devices, containers, stack, ucc).value;
    if |stack| > 0 {
      Seqs.FilterAll(cs, Drawable);
    } else {
      Seqs.FilterNone(cs, Drawable);
    }
  }

  /** With the four offered devices no render fails, and split mode with
      four or more selected containers and a snapshot in the window reaches
      the limit: sixteen or more charts for twelve places. */
  lemma {:induction false} SplitReachesLimit(containers: seq<Container>, stack: seq<Stats>, ucc: bool)
    requires |containers| >= 4 && |stack| > 0
    ensures Candidates(Split, AppDevices, containers, stack, ucc).Success?
    ensures |NonEmpty(Candidates(Split, AppDevices, containers, stack, ucc).value)| > MaxCharts
  {
    AppDevicesConvert();
    DrawableIffSnapshots(Split, AppDevices, containers, stack, ucc);
    assert |AppDevices| * |containers| >= 16;
  }
}
