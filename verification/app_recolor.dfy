/** Shuffling colours from the dashboard's button. The source sets the new
    colour on each running container object in place, and the selection and
    every stored record hold those same objects, so they all show the new
    colour from the next render on. In a value model the sharing becomes an
    explicit pass: a container equal to a running one takes that running
    container's new colour, wherever it is held. */
module Recoloring {

  import opened Wrappers
  import opened Containers
  import opened Metrics
  import opened Snapshots
  import opened Window
  import opened Devices
  import opened DeviceCharts
  import Running
  import Palette
  import Seqs

  /** No container is listed twice (docker identifiers are unique). */
  predicate Distinct(cs: seq<Container>) {
    forall i, j :: 0 <= i < j < |cs| ==> cs[i] != cs[j]
  }

  /** `after` is `before` as seen after `running[j]` became `recolored[j]`:
      same identifier and name; the new colour of the first running entry
      equal to `before`, or `before` itself when no running entry is. */
  predicate Recolored(before: Container, after: Container, running: seq<Container>, recolored: seq<Container>)
    requires |recolored| == |running|
  {
    && after.id == before.id
    && after.name == before.name
    && ((forall j :: 0 <= j < |running| ==> running[j] != before) ==> after == before)
    && (forall j :: 0 <= j < |running| && running[j] == before && (forall k :: 0 <= k < j ==> running[k] != before) ==>
          after.color == recolored[j].color)
  }

  /** `setColor` as every holder of the container sees it. */
  function RecolorOne(c: Container, running: seq<Container>, recolored: seq<Container>): (r: Container)
    requires |recolored| == |running|
    ensures Recolored(c, r, running, recolored)
  {
    match Seqs.FindIndex(running, (x: Container) => x == c)
    case Some(i) => c.(color := recolored[i].color)
    case None => c
  }

  /** The relation fixes the recoloured container completely. */
  lemma {:induction false} RecoloredUnique(before: Container, a: Container, b: Container, running: seq<Container>, recolored: seq<Container>)
    requires |recolored| == |running|
    requires Recolored(before, a, running, recolored) && Recolored(before, b, running, recolored)
    ensures a == b
  {
    match Seqs.FindIndex(running, (x: Container) => x == before)
    case Some(j) =>
      assert a.color == recolored[j].color == b.color;
    case None =>
  }

  /** A collection of containers, such as the selection, after the shuffle. */
  function RecolorAll(cs: seq<Container>, running: seq<Container>, recolored: seq<Container>): (r: seq<Container>)
    requires |recolored| == |running|
    ensures |r| == |cs|
    ensures forall i :: 0 <= i < |cs| ==> Recolored(cs[i], r[i], running, recolored)
  {
    Seqs.Map(cs, (c: Container) => RecolorOne(c, running, recolored))
  }

  /** A stored record after the shuffle: only its container's colour may change. */
  predicate RecordRecolored(before: ContainerStats, after: ContainerStats, running: seq<Container>, recolored: seq<Container>)
    requires |recolored| == |running|
  {
    after == before.(container := after.container) && Recolored(before.container, after.container, running, recolored)
  }

  function RecolorRecord(cs: ContainerStats, running: seq<Container>, recolored: seq<Container>): (r: ContainerStats)
    requires |recolored| == |running|
    ensures RecordRecolored(cs, r, running, recolored)
  {
    cs.(container := RecolorOne(cs.container, running, recolored))
  }

  /** A snapshot after the shuffle: same time, record by record recoloured. */
  predicate SnapshotRecolored(before: Stats, after: Stats, running: seq<Container>, recolored: seq<Container>)
    requires |recolored| == |running|
  {
    && after.time == before.time
    && |after.entries| == |before.entries|
    && forall e :: 0 <= e < |before.entries| ==> RecordRecolored(before.entries[e], after.entries[e], running, recolored)
  }

  function RecolorStats(s: Stats, running: seq<Container>, recolored: seq<Container>): (r: Stats)
    requires |recolored| == |running|
    ensures SnapshotRecolored(s, r, running, recolored)
  {
    s.(entries := Seqs.Map(s.entries, (cs: ContainerStats) => RecolorRecord(cs, running, recolored)))
  }

  /** Every snapshot of the window after the shuffle; size and order kept. */
  function RecolorWindow(st: StatsStack, running: seq<Container>, recolored: seq<Container>): (r: StatsStack)
    requires |recolored| == |running|
    ensures r.maxSize == st.maxSize && |r.stats| == |st.stats|
    ensures forall k :: 0 <= k < |st.stats| ==> SnapshotRecolored(st.stats[k], r.stats[k], running, recolored)
  {
    st.(stats := Seqs.Map(st.stats, (s: Stats) => RecolorStats(s, running, recolored)))
  }

  /** Recolouring with the colours unchanged changes nothing. */
  lemma {:induction false} UnchangedColoursKeepAll(cs: seq<Container>, running: seq<Container>)
    ensures RecolorAll(cs, running, running) == cs
  {
    var r := RecolorAll(cs, running, running);
    forall i | 0 <= i < |cs| ensures r[i] == cs[i] {
      RecoloredUnique(cs[i], r[i], cs[i], running, running);
    }
  }

  /** A running container equal to no earlier one becomes exactly its
      recoloured counterpart when the shuffle kept identifier and name. */
  lemma {:induction false} RunningEntryRecolored(c: Container, running: seq<Container>, recolored: seq<Container>, j: nat)
    requires |recolored| == |running| && j < |running| && Distinct(running) && c == running[j]
    requires Running.LineOf(recolored[j]) == Running.LineOf(running[j])
    ensures Recolored(c, recolored[j], running, recolored)
  {
  }

  /** Recolouring the running list itself gives the shuffled list. */
  lemma {:induction false} RunningBecomesRecolored(running: seq<Container>, recolored: seq<Container>)
    requires |recolored| == |running| && Distinct(running)
    requires forall j :: 0 <= j < |running| ==> Running.LineOf(recolored[j]) == Running.LineOf(running[j])
    ensures RecolorAll(running, running, recolored) == recolored
  {
    var r := RecolorAll(running, running, recolored);
    forall j | 0 <= j < |running| ensures r[j] == recolored[j] {
      RunningEntryRecolored(running[j], running, recolored, j);
      RecoloredUnique(running[j], r[j], recolored[j], running, recolored);
    }
  }

  /** With container colours on, every dot drawn from a stored record of
      running container `j` carries `j`'s new colour. */
  lemma {:induction false} DotsShowNewColour(d: Device, cs: ContainerStats, running: seq<Container>, recolored: seq<Container>, j: nat)
    requires |recolored| == |running| && j < |running| && Distinct(running) && cs.container == running[j]
    requires !BadUnit(d)
    ensures var dots := MakeChartDots(d, RecolorRecord(cs, running, recolored), true);
      dots.Success? && forall i :: 0 <= i < |dots.value| ==> dots.value[i].color == recolored[j].color
  {
    var after := RecolorRecord(cs, running, recolored);
    assert after.container.color == recolored[j].color;
  }

  /** The shuffle button: a fresh colour for every running container, seen
      by the selection and by every snapshot in the window alike. */
  method ShuffleEverywhere(running: seq<Container>, selected: seq<Container>, st: StatsStack, c: Palette.Colors, rand: nat -> nat)
    returns (running': seq<Container>, selected': seq<Container>, st': StatsStack, c': Palette.Colors)
    ensures |running'| == |running|
    ensures forall j :: 0 <= j < |running| ==> Running.LineOf(running'[j]) == Running.LineOf(running[j])
    ensures multiset(Palette.Palette(c')) == multiset(Palette.Palette(c))
    ensures |Palette.Palette(c)| > 0 && Palette.NoBlank(Palette.Palette(c)) ==>
      forall i :: 0 <= i < |running| ==> running'[i].color == Palette.Palette(c')[i % |Palette.Palette(c')|]
    ensures |selected'| == |selected|
    ensures forall i :: 0 <= i < |selected| ==> Recolored(selected[i], selected'[i], running, running')
    ensures Distinct(running) ==> forall i, j :: 0 <= i < |selected| && 0 <= j < |running| && selected[i] == running[j] ==>
      selected'[i] == running'[j]
    ensures st'.maxSize == st.maxSize && |st'.stats| == |st.stats|
    ensures forall k :: 0 <= k < |st.stats| ==> SnapshotRecolored(st.stats[k], st'.stats[k], running, running')
  {
    running', c' := Running.ShuffleColors(running, c, rand);
    selected' := RecolorAll(selected, running, running');
    st' := RecolorWindow(st, running, running');
    if Distinct(running) {
      forall i, j | 0 <= i < |selected| && 0 <= j < |running| && selected[i] == running[j]
        ensures selected'[i] == running'[j]
      {
        RunningEntryRecolored(selected[i], running, running', j);
        RecoloredUnique(selected[i], selected'[i], running'[j], running, running');
      }
    }
  }
}
