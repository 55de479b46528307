/** The sliding window of snapshots: a bounded FIFO that ignores a snapshot
    whose time it already holds. */
module Window {

  import opened Snapshots
  import Seqs

  datatype StatsStack = StatsStack(maxSize: nat, stats: seq<Stats>)

  function Empty(maxSize: nat): StatsStack {
    StatsStack(maxSize, [])
  }

  /** Appends `s`; when the window is already at (or over) its size, the
      oldest snapshot is dropped first. With size 0 the window still keeps
      the newest snapshot. */
  function AddStats(st: StatsStack, s: Stats): (r: StatsStack)
    ensures r.maxSize == st.maxSize
    ensures |r.stats| == if |st.stats| < st.maxSize || |st.stats| == 0 then |st.stats| + 1 else |st.stats|
    ensures r.stats[|r.stats| - 1] == s
    ensures r.stats[..|r.stats| - 1] == st.stats[|st.stats| - (|r.stats| - 1)..]
  {
    var kept := if |st.stats| >= st.maxSize && |st.stats| > 0 then st.stats[1..] else st.stats;
    assert kept == st.stats[|st.stats| - |kept|..];
    assert (kept + [s])[..|kept|] == kept;
    st.(stats := kept + [s])
  }

  /** Some snapshot of the window has time `t`. */
  function ContainsTime(stats: seq<Stats>, t: string): (r: bool)
    ensures r <==> exists i :: 0 <= i < |stats| && stats[i].time == t
  {
    Seqs.FindIndex(stats, (e: Stats) => e.time == t).Some?
  }

  /** A snapshot whose time is already present is ignored; any other is added
      exactly as `AddStats` adds it. */
  function AddUniqueStats(st: StatsStack, s: Stats): (r: StatsStack)
    ensures (exists i :: 0 <= i < |st.stats| && st.stats[i].time == s.time) ==> r == st
    ensures (forall i :: 0 <= i < |st.stats| ==> st.stats[i].time != s.time) ==> r == AddStats(st, s)
  {
    if ContainsTime(st.stats, s.time) then st else AddStats(st, s)
  }

  /** The bound the window keeps: its size, or one when the size is zero. */
  predicate WithinBound(st: StatsStack) {
    |st.stats| <= if st.maxSize == 0 then 1 else st.maxSize
  }

  /** The two insertions the window offers. */
  datatype Insertion = Add(s: Stats) | AddUnique(s: Stats)

  function Apply(st: StatsStack, op: Insertion): StatsStack {
    match op
    case Add(s) => AddStats(st, s)
    case AddUnique(s) => AddUniqueStats(st, s)
  }

  /** Applies the insertions in order. */
  function ApplyAll(st: StatsStack, ops: seq<Insertion>): StatsStack
    decreases |ops|
  {
    if |ops| == 0 then st else ApplyAll(Apply(st, ops[0]), ops[1..])
  }

  /** No sequence of insertions takes the window past its bound. */
  lemma {:induction false} BoundHolds(st: StatsStack, ops: seq<Insertion>)
    requires WithinBound(st)
    ensures WithinBound(ApplyAll(st, ops))
    ensures ApplyAll(st, ops).maxSize == st.maxSize
    decreases |ops|
  {
    if |ops| > 0 {
      BoundHolds(Apply(st, ops[0]), ops[1..]);
    }
  }

  predicate DistinctTimes(stats: seq<Stats>) {
    forall i, j :: 0 <= i < j < |stats| ==> stats[i].time != stats[j].time
  }

  /** Using only `AddUniqueStats`, the times in the window stay pairwise distinct. */
  lemma {:induction false} AddUniqueKeepsTimesDistinct(st: StatsStack, s: Stats)
    requires DistinctTimes(st.stats)
    ensures DistinctTimes(AddUniqueStats(st, s).stats)
  {
    if !ContainsTime(st.stats, s.time) {
      var r := AddStats(st, s).stats;
      var k := |st.stats| - (|r| - 1);
      forall i, j | 0 <= i < j < |r| ensures r[i].time != r[j].time {
        assert r[i] == st.stats[k + i];
        if j < |r| - 1 {
          assert r[j] == st.stats[k + j];
        }
      }
    }
  }

  /** Offers the snapshots to the window one after another with `AddUniqueStats`. */
  function AddAllUnique(st: StatsStack, xs: seq<Stats>): StatsStack
    decreases |xs|
  {
    if |xs| == 0 then st else AddUniqueStats(AddAllUnique(st, xs[..|xs| - 1]), xs[|xs| - 1])
  }

  /** One step of the sliding window: a window holding the last `k` of `p`
      (no more than `max`) offered a snapshot with a new time. */
  lemma {:induction false} SlideStep(w: StatsStack, p: seq<Stats>, x: Stats)
    requires w.maxSize >= 1
    requires |p| >= |w.stats| && w.stats == p[|p| - |w.stats|..]
    requires |w.stats| == if |p| < w.maxSize then |p| else w.maxSize
    requires forall i :: 0 <= i < |w.stats| ==> w.stats[i].time != x.time
    ensures var q := p + [x]; var r := AddUniqueStats(w, x).stats;
      |r| == (if |q| < w.maxSize then |q| else w.maxSize) && r == q[|q| - |r|..]
  {
    var q := p + [x];
    var r := AddStats(w, x).stats;
    assert AddUniqueStats(w, x).stats == r;
    if |p| < w.maxSize {
      assert r == w.stats + [x];
      assert p[|p| - |w.stats|..] == p;
      assert q[|q| - |r|..] == q;
    } else {
      assert r == w.stats[1..] + [x];
      assert q[|q| - |r|..] == p[|p| - |w.stats| + 1..] + [x];
    }
  }

  /** Dropping the newest snapshot keeps the times distinct. */
  lemma {:induction false} DistinctInit(xs: seq<Stats>)
    requires |xs| > 0 && DistinctTimes(xs)
    ensures DistinctTimes(xs[..|xs| - 1])
  {
    var p := xs[..|xs| - 1];
    forall i, j | 0 <= i < j < |p| ensures p[i].time != p[j].time {
      assert p[i] == xs[i] && p[j] == xs[j];
    }
  }

  /** The newest snapshot's time occurs in no run of the earlier ones. */
  lemma {:induction false} NewestTimeIsNew(xs: seq<Stats>, start: nat, ws: seq<Stats>)
    requires |xs| > 0 && DistinctTimes(xs)
    requires start <= |xs| - 1 && ws == xs[start..|xs| - 1]
    ensures forall i :: 0 <= i < |ws| ==> ws[i].time != xs[|xs| - 1].time
  {
    forall i | 0 <= i < |ws| ensures ws[i].time != xs[|xs| - 1].time {
      assert ws[i] == xs[start + i];
    }
  }

  /** The window holds the last `max` snapshots (all of them if fewer). */
  predicate HoldsLast(w: StatsStack, max: nat, xs: seq<Stats>) {
    && w.maxSize == max
    && |w.stats| == (if |xs| < max then |xs| else max)
    && w.stats == xs[|xs| - |w.stats|..]
  }

  /** The inductive step of `SlidingWindow`: a window over `p` offered a
      snapshot with a new time becomes the window over `p + [x]`. */
  lemma {:induction false} SlidingWindowStep(w: StatsStack, p: seq<Stats>, x: Stats)
    requires w.maxSize >= 1
    requires HoldsLast(w, w.maxSize, p)
    requires DistinctTimes(p + [x])
    ensures HoldsLast(AddUniqueStats(w, x), w.maxSize, p + [x])
  {
    var xs := p + [x];
    assert xs[..|xs| - 1] == p;
    assert w.stats == xs[|p| - |w.stats|..|xs| - 1];
    NewestTimeIsNew(xs, |p| - |w.stats|, w.stats);
    SlideStep(w, p, x);
  }

  /** Fed snapshots with distinct times, a window of size `max >= 1` holds
      exactly the last `max` of them (all of them if fewer), oldest first. */
  lemma {:induction false} SlidingWindow(max: nat, xs: seq<Stats>)
    requires max >= 1
    requires DistinctTimes(xs)
    ensures HoldsLast(AddAllUnique(Empty(max), xs), max, xs)
  {
    if |xs| > 0 {
      var p := xs[..|xs| - 1];
      var x := xs[|xs| - 1];
      assert xs == p + [x];
      DistinctInit(xs);
      SlidingWindow(max, p);
      var w := AddAllUnique(Empty(max), p);
      SlidingWindowStep(w, p, x);
      assert AddAllUnique(Empty(max), xs) == AddUniqueStats(w, x);
    }
  }

  /** Inserting `max + 1` distinct times evicts the first and keeps the other
      `max` in insertion order. */
  lemma {:induction false} EvictsOldest(max: nat, xs: seq<Stats>)
    requires max >= 1 && |xs| == max + 1
    requires DistinctTimes(xs)
    ensures AddAllUnique(Empty(max), xs).stats == xs[1..]
    ensures !ContainsTime(AddAllUnique(Empty(max), xs).stats, xs[0].time)
  {
    SlidingWindow(max, xs);
    var w := AddAllUnique(Empty(max), xs).stats;
    forall i | 0 <= i < |w| ensures w[i].time != xs[0].time {
      assert w[i] == xs[i + 1];
    }
  }
}
