/** The dashboard's view of the running containers: identifying them from
    `docker ps` (with colours), noticing when the streamed set differs, and
    joining streamed records to them. */
module Running {

  import opened Wrappers
  import opened Containers
  import opened Metrics
  import opened Snapshots
  import Palette
  import Seqs
  import Sorting
  import Strings

  /** One line of `docker ps`: a container's identifier and name. */
  datatype PsLine = PsLine(id: string, name: string)

  function LineByName(nameLe: (string, string) -> bool): (PsLine, PsLine) -> bool {
    (a: PsLine, b: PsLine) => nameLe(a.name, b.name)
  }

  lemma {:induction false} LineByNameIsTotalPreorder(nameLe: (string, string) -> bool)
    requires Sorting.TotalPreorder(nameLe)
    ensures Sorting.TotalPreorder(LineByName(nameLe))
  {
    var le := LineByName(nameLe);
    forall x, y ensures le(x, y) || le(y, x) {
      assert nameLe(x.name, y.name) || nameLe(y.name, x.name);
    }
    forall x, y, z | le(x, y) && le(y, z) ensures le(x, z) {
      assert nameLe(x.name, y.name) && nameLe(y.name, z.name);
    }
  }

  function LineOf(c: Container): PsLine {
    PsLine(c.id, c.name)
  }

  /** A container per line, in order, each taking the allocator's next colour. */
  function ColorContainers(lines: seq<PsLine>, c: Palette.Colors): (r: (seq<Container>, Palette.Colors))
    ensures |r.0| == |lines|
    ensures forall i :: 0 <= i < |lines| ==> LineOf(r.0[i]) == lines[i]
    ensures forall i :: 0 <= i < |lines| ==> r.0[i].color == Palette.PopMany(c, |lines|).0[i]
    ensures r.1 == Palette.PopMany(c, |lines|).1
    decreases |lines|
  {
    if |lines| == 0 then ([], c)
    else
      var first := Palette.Pop(c);
      var rest := ColorContainers(lines[1..], first.1);
      var out := [Container(lines[0].id, lines[0].name, first.0)] + rest.0;
      assert forall i :: 1 <= i < |lines| ==> out[i] == rest.0[i - 1];
      (out, rest.1)
  }

  /** Resets the allocator, sorts the `docker ps` lines by name with the
      collation order `nameLe`, and creates the containers in that order,
      each with the next colour. */
  function IdentifyRunningContainers(lines: seq<PsLine>, c: Palette.Colors, nameLe: (string, string) -> bool)
    : (r: (seq<Container>, Palette.Colors))
    requires Sorting.TotalPreorder(nameLe)
    ensures |r.0| == |lines|
    ensures multiset(Seqs.Map(r.0, LineOf)) == multiset(lines)
    ensures forall i, j :: 0 <= i < j < |r.0| ==> nameLe(r.0[i].name, r.0[j].name)
    ensures Palette.Palette(r.1) == Palette.Palette(c)
    ensures |Palette.Palette(c)| > 0 && Palette.NoBlank(Palette.Palette(c)) ==>
      forall i :: 0 <= i < |r.0| ==> r.0[i].color == Palette.Palette(c)[i % |Palette.Palette(c)|]
  {
    LineByNameIsTotalPreorder(nameLe);
    Sorting.SortBySorted(lines, LineByName(nameLe));
    var sorted := Sorting.SortBy(lines, LineByName(nameLe));
    var r := ColorContainers(sorted, Palette.Reset(c));
    assert Seqs.Map(r.0, LineOf) == sorted;
    assert forall i, j :: 0 <= i < j < |sorted| ==> LineByName(nameLe)(sorted[i], sorted[j]);
    CycleWhenUsable(c, |sorted|);
    r
  }

  lemma {:induction false} CycleWhenUsable(c: Palette.Colors, k: nat)
    ensures |Palette.Palette(c)| > 0 && Palette.NoBlank(Palette.Palette(c)) ==>
      forall i :: 0 <= i < k ==> Palette.PopMany(Palette.Reset(c), k).0[i] == Palette.Palette(c)[i % |Palette.Palette(c)|]
  {
    if |Palette.Palette(c)| > 0 && Palette.NoBlank(Palette.Palette(c)) {
      Palette.PopsCycleAfterReset(c, k);
    }
  }

  /** Resets the allocator, shuffles its palette with `rand`, and gives every
      running container the next colour in turn. */
  method ShuffleColors(running: seq<Container>, c: Palette.Colors, rand: nat -> nat)
    returns (recolored: seq<Container>, c': Palette.Colors)
    ensures |recolored| == |running|
    ensures forall i :: 0 <= i < |running| ==> LineOf(recolored[i]) == LineOf(running[i])
    ensures multiset(Palette.Palette(c')) == multiset(Palette.Palette(c))
    ensures |Palette.Palette(c)| > 0 && Palette.NoBlank(Palette.Palette(c)) ==>
      forall i :: 0 <= i < |running| ==> recolored[i].color == Palette.Palette(c')[i % |Palette.Palette(c')|]
  {
    var shuffled := Palette.Shuffle(Palette.Reset(c), rand);
    var lines := Seqs.Map(running, LineOf);
    var r := ColorContainers(lines, shuffled);
    recolored, c' := r.0, r.1;
    if |Palette.Palette(c)| > 0 && Palette.NoBlank(Palette.Palette(c)) {
      var p := Palette.Palette(shuffled);
      forall i | 0 <= i < |p| ensures p[i] != "" {
        assert p[i] in multiset(Palette.Palette(c));
      }
      Palette.PopsCycleAfterReset(shuffled, |lines|);
      assert Palette.Reset(shuffled) == shuffled;
    }
  }

  function Names(cs: seq<Container>): seq<string> {
    Seqs.Map(cs, (c: Container) => c.name)
  }

  function RawNames(raw: seq<RawContainerStats>): seq<string> {
    Seqs.Map(raw, (r: RawContainerStats) => r.name)
  }

  /** `Array.prototype.toString` on a list of strings: joined by ",". */
  function ArrayToString(xs: seq<string>): string {
    Strings.Join(xs, ",")
  }

  /** The check as written: the sorted name lists are compared through their
      comma-joined text. */
  function ContainersChangedAsWritten(running: seq<Container>, raw: seq<RawContainerStats>): bool {
    ArrayToString(Sorting.SortBy(Names(running), Strings.StrLe))
      != ArrayToString(Sorting.SortBy(RawNames(raw), Strings.StrLe))
  }

  /** The check as intended: the sorted name lists themselves differ, which is
      exactly a difference between the two multisets of names. */
  function ContainersChanged(running: seq<Container>, raw: seq<RawContainerStats>): (r: bool)
    ensures r <==> multiset(Names(running)) != multiset(RawNames(raw))
  {
    Strings.StrLeIsTotalOrder();
    Sorting.SortByDecidesPermutation(Names(running), RawNames(raw), Strings.StrLe);
    Sorting.SortBy(Names(running), Strings.StrLe) != Sorting.SortBy(RawNames(raw), Strings.StrLe)
  }

  /** A name the joined comparison cannot confuse: non-empty, without commas. */
  predicate PlainName(n: string) {
    |n| > 0 && forall i :: 0 <= i < |n| ==> n[i] != ','
  }

  predicate AllPlain(names: seq<string>) {
    forall k :: 0 <= k < |names| ==> PlainName(names[k])
  }

  lemma {:induction false} JoinStartsWithFirst(parts: seq<string>, sep: string)
    requires |parts| >= 1
    ensures |Strings.Join(parts, sep)| >= |parts[0]|
  {
  }

  /** Joining by "," is injective on lists of plain names. */
  lemma {:induction false} JoinInjective(a: seq<string>, b: seq<string>)
    requires AllPlain(a) && AllPlain(b)
    requires ArrayToString(a) == ArrayToString(b)
    ensures a == b
  {
    if |a| == 0 && |b| > 0 {
      JoinStartsWithFirst(b, ",");
    } else if |b| == 0 && |a| > 0 {
      JoinStartsWithFirst(a, ",");
    } else if |a| > 0 && |b| > 0 {
      assert [','] == ",";
      Strings.JoinSplit(a, ',');
      Strings.JoinSplit(b, ',');
    }
  }

  lemma {:induction false} SortedPlain(names: seq<string>)
    requires AllPlain(names)
    ensures AllPlain(Sorting.SortBy(names, Strings.StrLe))
  {
    var s := Sorting.SortBy(names, Strings.StrLe);
    forall k | 0 <= k < |s| ensures PlainName(s[k]) {
      assert s[k] in multiset(names);
      var j :| 0 <= j < |names| && names[j] == s[k];
    }
  }

  /** For plain names the check as written agrees with the intended one. */
  lemma {:induction false} AsWrittenAgreesOnPlainNames(running: seq<Container>, raw: seq<RawContainerStats>)
    requires AllPlain(Names(running)) && AllPlain(RawNames(raw))
    ensures ContainersChangedAsWritten(running, raw) == ContainersChanged(running, raw)
  {
    SortedPlain(Names(running));
    SortedPlain(RawNames(raw));
    if !ContainersChangedAsWritten(running, raw) {
      JoinInjective(Sorting.SortBy(Names(running), Strings.StrLe), Sorting.SortBy(RawNames(raw), Strings.StrLe));
    }
  }

  /** Some running container is called `name`. */
  predicate Known(running: seq<Container>, name: string) {
    exists j :: 0 <= j < |running| && running[j].name == name
  }

  /** Every streamed record's name belongs to some running container. */
  predicate AllKnown(running: seq<Container>, raw: seq<RawContainerStats>) {
    forall i :: 0 <= i < |raw| ==> Known(running, raw[i].name)
  }

  /** `raw[i]` is the first record whose name no running container has. */
  predicate FirstUnknownAt(running: seq<Container>, raw: seq<RawContainerStats>, i: int) {
    0 <= i < |raw| && !Known(running, raw[i].name) && forall j :: 0 <= j < i ==> Known(running, raw[j].name)
  }

  /** The running container of each record's name, in stream order; the
      first unknown name is an error. */
  function LookupAll(running: seq<Container>, raw: seq<RawContainerStats>): (r: Result<seq<Container>, Error>)
    ensures r.Success? ==> |r.value| == |raw|
    ensures r.Success? ==> forall i :: 0 <= i < |raw| ==> GetContainerByName(running, raw[i].name) == Success(r.value[i])
    decreases |raw|
  {
    if |raw| == 0 then Success([])
    else
      match GetContainerByName(running, raw[0].name)
      case Failure(e) => Failure(e)
      case Success(c) =>
        match LookupAll(running, raw[1..])
        case Failure(e) => Failure(e)
        case Success(rest) =>
          Seqs.PointwiseCons(raw, c, rest, JoinedByName(running));
          Success([c] + rest)
  }

  /** `y` is the container the record `x` is joined to. */
  function JoinedByName(running: seq<Container>): (RawContainerStats, Container) -> bool {
    (x: RawContainerStats, y: Container) => GetContainerByName(running, x.name) == Success(y)
  }

  /** `LookupAll` fails exactly when some name is unknown, and then it
      reports the first unknown name. */
  lemma {:induction false} LookupAllOutcome(running: seq<Container>, raw: seq<RawContainerStats>)
    ensures LookupAll(running, raw).Success? <==> AllKnown(running, raw)
    ensures LookupAll(running, raw).Failure? ==>
      exists i :: FirstUnknownAt(running, raw, i) && LookupAll(running, raw).error == ContainerNotFound(raw[i].name)
    decreases |raw|
  {
    if |raw| > 0 {
      var g := GetContainerByName(running, raw[0].name);
      if g.Failure? {
        assert FirstUnknownAt(running, raw, 0);
      } else {
        assert running[Seqs.FindIndex(running, (c: Container) => c.name == raw[0].name).value] == g.value;
        assert Known(running, raw[0].name);
        LookupAllOutcome(running, raw[1..]);
        assert AllKnown(running, raw) <==> AllKnown(running, raw[1..]) by {
          assert forall i :: 1 <= i < |raw| ==> raw[1..][i - 1] == raw[i];
        }
        var tail := LookupAll(running, raw[1..]);
        if tail.Failure? {
          FirstUnknownLater(running, raw, tail.error);
        }
      }
    }
  }

  /** An unknown name found after a known first record is the first unknown
      name of the whole stream. */
  lemma {:induction false} FirstUnknownLater(running: seq<Container>, raw: seq<RawContainerStats>, e: Error)
    requires |raw| > 0 && Known(running, raw[0].name)
    requires exists k :: FirstUnknownAt(running, raw[1..], k) && e == ContainerNotFound(raw[1..][k].name)
    ensures exists k :: FirstUnknownAt(running, raw, k) && e == ContainerNotFound(raw[k].name)
  {
    var k :| FirstUnknownAt(running, raw[1..], k) && e == ContainerNotFound(raw[1..][k].name);
    assert raw[1..][k] == raw[k + 1];
    forall j | 0 <= j < k + 1 ensures Known(running, raw[j].name) {
      if j > 0 {
        assert raw[j] == raw[1..][j - 1];
      }
    }
    assert FirstUnknownAt(running, raw, k + 1);
  }

  /** Each record parsed and joined to the container at the same position. */
  function ParseAll(time: string, cs: seq<Container>, raw: seq<RawContainerStats>): (entries: seq<ContainerStats>)
    requires |cs| == |raw|
    ensures |entries| == |raw|
    ensures forall i :: 0 <= i < |raw| ==> entries[i] == MakeContainerStats(time, cs[i], raw[i])
    decreases |raw|
  {
    if |raw| == 0 then [] else [MakeContainerStats(time, cs[0], raw[0])] + ParseAll(time, cs[1..], raw[1..])
  }

  /** A snapshot at `time` holding, in stream order, each record joined to the
      running container of the same name; an unknown name is an error, and
      the error names the first such record. */
  function MakeStatsFromRaw(time: string, running: seq<Container>, raw: seq<RawContainerStats>): (r: Result<Stats, Error>)
    ensures r.Success? <==> AllKnown(running, raw)
    ensures r.Success? ==> r.value.time == time && |r.value.entries| == |raw|
    ensures r.Success? ==> forall i :: 0 <= i < |raw| ==>
      r.value.entries[i] == MakeContainerStats(time, GetContainerByName(running, raw[i].name).value, raw[i])
    ensures r.Failure? ==> exists i :: FirstUnknownAt(running, raw, i) && r.error == ContainerNotFound(raw[i].name)
  {
    LookupAllOutcome(running, raw);
    var cs :- LookupAll(running, raw);
    Success(Stats(time, ParseAll(time, cs, raw)))
  }

  /** When the intended check reports no change, every record finds its
      container, so building the snapshot cannot fail. */
  lemma {:induction false} UnchangedMeansAllKnown(running: seq<Container>, raw: seq<RawContainerStats>)
    requires !ContainersChanged(running, raw)
    ensures forall time :: MakeStatsFromRaw(time, running, raw).Success?
  {
    forall i | 0 <= i < |raw| ensures Known(running, raw[i].name) {
      assert RawNames(raw)[i] in multiset(Names(running));
      var j :| 0 <= j < |running| && Names(running)[j] == RawNames(raw)[i];
    }
  }

  lemma {:induction false} SortTwo(a: string, b: string)
    requires Strings.StrLe(a, b)
    ensures Sorting.SortBy([a, b], Strings.StrLe) == [a, b]
  {
    assert [a, b][..1] == [a];
    assert [a][..0] == [];
    assert Sorting.SortBy([a], Strings.StrLe) == [a];
  }

  lemma {:induction false} SortOne(a: string)
    ensures Sorting.SortBy([a], Strings.StrLe) == [a]
  {
    assert [a][..0] == [];
  }

  /** A running container named "a,b" and streamed records named "a" and "b"
      compare equal as written, so no re-identification happens, and building
      the snapshot then fails on the unknown name "a". */
  lemma {:induction false} CommaNameCounterexample(id: string, color: string, rawA: RawContainerStats, rawB: RawContainerStats)
    requires rawA.name == "a" && rawB.name == "b"
    ensures !ContainersChangedAsWritten([Container(id, "a,b", color)], [rawA, rawB])
    ensures ContainersChanged([Container(id, "a,b", color)], [rawA, rawB])
    ensures MakeStatsFromRaw("", [Container(id, "a,b", color)], [rawA, rawB]).Failure?
  {
    CommaNamesPrintAlike(id, color, rawA, rawB);
    var running := [Container(id, "a,b", color)];
    var raw := [rawA, rawB];
    assert multiset(Names(running)) != multiset(RawNames(raw)) by {
      assert Names(running) == ["a,b"];
      assert RawNames(raw) == ["a", "b"];
      assert multiset(Names(running))["a"] == 0;
    }
    assert !Known(running, raw[0].name) by {
      assert running[0].name != raw[0].name;
    }
  }

  lemma {:induction false} CommaNamesPrintAlike(id: string, color: string, rawA: RawContainerStats, rawB: RawContainerStats)
    requires rawA.name == "a" && rawB.name == "b"
    ensures !ContainersChangedAsWritten([Container(id, "a,b", color)], [rawA, rawB])
  {
    assert Names([Container(id, "a,b", color)]) == ["a,b"];
    assert RawNames([rawA, rawB]) == ["a", "b"];
    SortOne("a,b");
    assert Strings.StrLe("a", "b");
    SortTwo("a", "b");
    assert ArrayToString(["a", "b"]) == "a,b";
  }

  /** No running containers and a single streamed record with an empty name
      also compare equal as written: both lists print as "". */
  lemma {:induction false} EmptyNameCounterexample(raw: RawContainerStats)
    requires raw.name == ""
    ensures !ContainersChangedAsWritten([], [raw])
    ensures ContainersChanged([], [raw])
  {
    assert Names([]) == [];
    assert RawNames([raw]) == [""];
    SortOne("");
    assert multiset(RawNames([raw]))[""] == 1;
  }
}
