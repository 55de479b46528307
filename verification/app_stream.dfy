/** The two timers of the dashboard: the `docker stats` stream callback,
    which keeps the latest parsed records and counts consecutive unreadable
    chunks, and the once-per-interval tick that turns the latest records into
    a snapshot of the window. */
module Streaming {

  import opened Wrappers
  import opened Containers
  import opened Metrics
  import opened Snapshots
  import opened Window
  import Running
  import Arith

  const MaxConsecutiveFailedReads: nat := 20

  /** A chunk of stream output: empty, not parseable line by line, or the
      parsed records. */
  datatype Chunk = NoOutput | Malformed | Parsed(records: seq<RawContainerStats>)

  /** The callback's state: the failure counter and the latest records. */
  datatype StreamState = StreamState(failedReads: nat, latest: Option<seq<RawContainerStats>>)

  function Initial(): StreamState {
    StreamState(0, None)
  }

  /** One chunk: a parse resets the counter, a failure increments it, and
      passing the limit asks for re-identification and restarts the count.
      Only a non-empty parse replaces the latest records. The flag is true
      when the running containers must be identified again. */
  function OnOutput(st: StreamState, chunk: Chunk): (r: (StreamState, bool))
    ensures chunk.NoOutput? ==> r == (st, false)
    ensures chunk.Parsed? ==> r.0.failedReads == 0 && !r.1
    ensures r.0.latest == if chunk.Parsed? && |chunk.records| > 0 then Some(chunk.records) else st.latest
    ensures chunk.Malformed? ==> (r.1 <==> st.failedReads >= MaxConsecutiveFailedReads)
    ensures chunk.Malformed? && !r.1 ==> r.0.failedReads == st.failedReads + 1
    ensures r.1 ==> r.0.failedReads == 0
  {
    match chunk
    case NoOutput => (st, false)
    case Malformed =>
      var failed := st.failedReads + 1;
      if failed > MaxConsecutiveFailedReads then (st.(failedReads := 0), true)
      else (st.(failedReads := failed), false)
    case Parsed(records) =>
      var latest := if |records| > 0 then Some(records) else st.latest;
      (StreamState(0, latest), false)
  }

  /** The state after a run of chunks and the number of re-identifications. */
  function Feed(st: StreamState, chunks: seq<Chunk>): (StreamState, nat)
    decreases |chunks|
  {
    if |chunks| == 0 then (st, 0)
    else
      var (next, again) := OnOutput(st, chunks[0]);
      var (last, n) := Feed(next, chunks[1..]);
      (last, n + if again then 1 else 0)
  }

  /** The callback never keeps an empty list of records as the latest. */
  predicate Sane(st: StreamState) {
    st.failedReads <= MaxConsecutiveFailedReads && (st.latest.Some? ==> |st.latest.value| > 0)
  }

  /** Any run of chunks keeps the counter within the limit and the latest
      records non-empty. */
  lemma {:induction false} FeedKeepsSane(st: StreamState, chunks: seq<Chunk>)
    requires Sane(st)
    ensures Sane(Feed(st, chunks).0)
    decreases |chunks|
  {
    if |chunks| > 0 {
      FeedKeepsSane(OnOutput(st, chunks[0]).0, chunks[1..]);
    }
  }

  function Failures(k: nat): (r: seq<Chunk>)
    ensures |r| == k && forall i :: 0 <= i < k ==> r[i] == Malformed
  {
    seq(k, _ => Malformed)
  }

  /** `k` unreadable chunks in a row, from a counter at `c`: the counter ends
      at `(c + k) mod 21` and re-identification is asked for `(c + k) div 21`
      times, i.e. on every 21st consecutive failure. */
  lemma {:induction false} FailureRun(st: StreamState, k: nat)
    requires st.failedReads <= MaxConsecutiveFailedReads
    ensures Feed(st, Failures(k)).0.failedReads == (st.failedReads + k) % (MaxConsecutiveFailedReads + 1)
    ensures Feed(st, Failures(k)).1 == (st.failedReads + k) / (MaxConsecutiveFailedReads + 1)
    ensures Feed(st, Failures(k)).0.latest == st.latest
    decreases k
  {
    var n := MaxConsecutiveFailedReads + 1;
    var c := st.failedReads;
    if k == 0 {
      Arith.ModUnique(c, n, 0, c);
    } else {
      var (next, again) := OnOutput(st, Malformed);
      assert Failures(k)[1..] == Failures(k - 1);
      FailureRun(next, k - 1);
      var c' := next.failedReads;
      var q' := (c' + k - 1) / n;
      var r' := (c' + k - 1) % n;
      assert c' + k - 1 == q' * n + r';
      if again {
        assert c == 20 && c' == 0;
        Arith.ModUnique(c + k, n, q' + 1, r');
      } else {
        assert c' == c + 1;
        Arith.ModUnique(c + k, n, q', r');
      }
    }
  }

  /** What a tick does: nothing before the first records arrive, a
      re-identification when the names changed, otherwise a new snapshot
      pushed onto the window. */
  datatype TickOutcome = Idle | Reidentify | Pushed(stack: StatsStack)

  /** The tick with the intended name comparison: it never fails, because
      unchanged names guarantee every record finds its container. */
  function Tick(latest: Option<seq<RawContainerStats>>, running: seq<Container>, stack: StatsStack, time: string): (r: TickOutcome)
    ensures latest.None? <==> r == Idle
    ensures latest.Some? ==> (r == Reidentify <==> Running.ContainersChanged(running, latest.value))
    ensures r.Pushed? ==>
      && latest.Some?
      && Running.MakeStatsFromRaw(time, running, latest.value).Success?
      && r.stack == AddUniqueStats(stack, Running.MakeStatsFromRaw(time, running, latest.value).value)
  {
    match latest
    case None => Idle
    case Some(raw) =>
      if Running.ContainersChanged(running, raw) then Reidentify
      else
        Running.UnchangedMeansAllKnown(running, raw);
        Pushed(AddUniqueStats(stack, Running.MakeStatsFromRaw(time, running, raw).value))
  }

  /** The tick as written, comparing the joined name lists: a record whose
      name no running container has makes the snapshot lookup fail. */
  function TickAsWritten(latest: Option<seq<RawContainerStats>>, running: seq<Container>, stack: StatsStack, time: string): (r: Result<TickOutcome, Error>)
    ensures r.Failure? <==>
      && latest.Some?
      && !Running.ContainersChangedAsWritten(running, latest.value)
      && !Running.AllKnown(running, latest.value)
  {
    match latest
    case None => Success(Idle)
    case Some(raw) =>
      if Running.ContainersChangedAsWritten(running, raw) then Success(Reidentify)
      else
        var stats :- Running.MakeStatsFromRaw(time, running, raw);
        Success(Pushed(AddUniqueStats(stack, stats)))
  }

  /** With plain names (non-empty, comma-free) the two ticks agree. */
  lemma {:induction false} TicksAgreeOnPlainNames(latest: Option<seq<RawContainerStats>>, running: seq<Container>, stack: StatsStack, time: string)
    requires latest.Some? ==> Running.AllPlain(Running.Names(running)) && Running.AllPlain(Running.RawNames(latest.value))
    ensures TickAsWritten(latest, running, stack, time) == Success(Tick(latest, running, stack, time))
  {
    if latest.Some? {
      Running.AsWrittenAgreesOnPlainNames(running, latest.value);
    }
  }

  /** A container named "a,b" streamed as records "a" and "b": the tick as
      written fails on the unknown name, where the intended one re-identifies. */
  lemma {:induction false} TickCommaCounterexample(id: string, color: string, rawA: RawContainerStats, rawB: RawContainerStats, stack: StatsStack, time: string)
    requires rawA.name == "a" && rawB.name == "b"
    ensures TickAsWritten(Some([rawA, rawB]), [Container(id, "a,b", color)], stack, time).Failure?
    ensures Tick(Some([rawA, rawB]), [Container(id, "a,b", color)], stack, time) == Reidentify
  {
    Running.CommaNameCounterexample(id, color, rawA, rawB);
    var running := [Container(id, "a,b", color)];
    var raw := [rawA, rawB];
    assert !Running.Known(running, raw[0].name) by {
      assert running[0].name != raw[0].name;
    }
  }
}
