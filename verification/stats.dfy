/** One sampling tick: the parsed records of every streamed container,
    stamped with the tick's time and joined to containers by name. */
module Snapshots {

  import opened Containers
  import opened Metrics
  import Seqs

  datatype Stats = Stats(time: string, entries: seq<ContainerStats>)

  function NewStats(time: string): Stats {
    Stats(time, [])
  }

  /** Every metric of the record is zero. */
  predicate AllZero(cs: ContainerStats) {
    && cs.cpuPercent == 0.0 && cs.memoryPercent == 0.0
    && cs.memoryUsage == 0.0 && cs.memoryLimit == 0.0
    && cs.diskRead == 0.0 && cs.diskWrite == 0.0
    && cs.networkRead == 0.0 && cs.networkWrite == 0.0
  }

  /** Some record of the snapshot belongs to a container named `name`. */
  predicate HasEntryFor(s: Stats, name: string) {
    exists i :: 0 <= i < |s.entries| && s.entries[i].container.name == name
  }

  /** Appends a record, keeping the time and the earlier records in order. */
  function AddContainerStats(s: Stats, cs: ContainerStats): (r: Stats)
    ensures r.time == s.time
    ensures |r.entries| == |s.entries| + 1
    ensures r.entries[..|s.entries|] == s.entries && r.entries[|s.entries|] == cs
  {
    s.(entries := s.entries + [cs])
  }

  /** The first record whose container has `c`'s name; when there is none, a
      record for `c` at the snapshot's time with every metric zero. */
  function GetContainerStats(s: Stats, c: Container): (r: ContainerStats)
    ensures HasEntryFor(s, c.name) ==>
      exists i :: 0 <= i < |s.entries| && r == s.entries[i] && r.container.name == c.name
        && forall j :: 0 <= j < i ==> s.entries[j].container.name != c.name
    ensures !HasEntryFor(s, c.name) ==> r.time == s.time && r.container == c && AllZero(r)
    ensures NonNegative(r) || HasEntryFor(s, c.name)
  {
    match Seqs.FindIndex(s.entries, (e: ContainerStats) => e.container.name == c.name)
    case Some(i) => s.entries[i]
    case None =>
      UnavailableIsZero(s.time, c);
      MakeContainerStats(s.time, c, UnavailableRaw(c.name))
  }

  /** The join is by name: two containers with the same name (whatever their
      identifiers) read the same record when there is one. */
  lemma {:induction false} JoinIsByName(s: Stats, a: Container, b: Container)
    requires a.name == b.name && HasEntryFor(s, a.name)
    ensures GetContainerStats(s, a) == GetContainerStats(s, b)
  {
    var ra, rb := GetContainerStats(s, a), GetContainerStats(s, b);
    var i :| 0 <= i < |s.entries| && ra == s.entries[i] && ra.container.name == a.name
      && forall j :: 0 <= j < i ==> s.entries[j].container.name != a.name;
    var k :| 0 <= k < |s.entries| && rb == s.entries[k] && rb.container.name == b.name
      && forall j :: 0 <= j < k ==> s.entries[j].container.name != b.name;
  }

  /** Appending a record never changes what existing names join to, and a
      previously unmatched name joins to the new record when it matches. */
  lemma {:induction false} AddThenGet(s: Stats, cs: ContainerStats, c: Container)
    ensures HasEntryFor(s, c.name) ==>
      GetContainerStats(AddContainerStats(s, cs), c) == GetContainerStats(s, c)
    ensures !HasEntryFor(s, c.name) && cs.container.name == c.name ==>
      GetContainerStats(AddContainerStats(s, cs), c) == cs
  {
    var s' := AddContainerStats(s, cs);
    var r' := GetContainerStats(s', c);
    if HasEntryFor(s, c.name) {
      var i :| 0 <= i < |s.entries| && s.entries[i].container.name == c.name;
      assert s'.entries[i] == s.entries[i];
      var k :| 0 <= k < |s'.entries| && r' == s'.entries[k] && r'.container.name == c.name
        && forall j :: 0 <= j < k ==> s'.entries[j].container.name != c.name;
      var r := GetContainerStats(s, c);
      var m :| 0 <= m < |s.entries| && r == s.entries[m] && r.container.name == c.name
        && forall j :: 0 <= j < m ==> s.entries[j].container.name != c.name;
      assert s'.entries[m] == s.entries[m];
    } else if cs.container.name == c.name {
      assert s'.entries[|s.entries|] == cs;
      assert HasEntryFor(s', c.name);
      var k :| 0 <= k < |s'.entries| && r' == s'.entries[k] && r'.container.name == c.name;
      if k < |s.entries| {
        assert s'.entries[k] == s.entries[k];
      }
    }
  }
}
