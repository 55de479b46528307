/** Running containers and the ordered collections of them that the dashboard
    keeps (running, filtered, selected). */
module Containers {

  import opened Wrappers
  import Seqs
  import Sorting

  /** A container as the rest of the program uses it: identifier, display name
      and the colour handed out by the palette. */
  datatype Container = Container(id: string, name: string, color: string)

  /** Identity is the identifier alone. */
  predicate Equals(a: Container, b: Container) {
    a.id == b.id
  }

  /** `equals` ignores names and colours and is an equivalence relation. */
  lemma {:induction false} EqualsIsIdentity(a: Container, b: Container, c: Container, name: string, color: string)
    ensures Equals(a, b) <==> Equals(a.(name := name, color := color), b)
    ensures Equals(a, a)
    ensures Equals(a, b) ==> Equals(b, a)
    ensures Equals(a, b) && Equals(b, c) ==> Equals(a, c)
  {
  }

  /** Appends without deduplication. */
  function AddContainer(cs: seq<Container>, c: Container): (r: seq<Container>)
    ensures |r| == |cs| + 1
    ensures multiset(r) == multiset(cs) + multiset{c}
    ensures r[..|cs|] == cs && r[|cs|] == c
  {
    cs + [c]
  }

  /** Some element has the same identifier as `c`. */
  function ContainsContainer(cs: seq<Container>, c: Container): (r: bool)
    ensures r <==> exists i :: 0 <= i < |cs| && cs[i].id == c.id
  {
    |cs| > 0 && (Equals(cs[0], c) || ContainsContainer(cs[1..], c))
  }

  /** The first container with this name, or `ContainerNotFound`. */
  function GetContainerByName(cs: seq<Container>, name: string): (r: Result<Container, Error>)
    ensures r.Success? ==> r.value.name == name
    ensures r.Success? ==> exists i :: 0 <= i < |cs| && cs[i] == r.value && forall j :: 0 <= j < i ==> cs[j].name != name
    ensures r.Failure? <==> forall i :: 0 <= i < |cs| ==> cs[i].name != name
    ensures r.Failure? ==> r.error == ContainerNotFound(name)
  {
    match Seqs.FindIndex(cs, (c: Container) => c.name == name)
    case Some(i) => Success(cs[i])
    case None => Failure(ContainerNotFound(name))
  }

  /** The first container with this identifier, or `ContainerNotFound`. */
  function GetContainerById(cs: seq<Container>, id: string): (r: Result<Container, Error>)
    ensures r.Success? ==> r.value.id == id
    ensures r.Success? ==> exists i :: 0 <= i < |cs| && cs[i] == r.value && forall j :: 0 <= j < i ==> cs[j].id != id
    ensures r.Failure? <==> forall i :: 0 <= i < |cs| ==> cs[i].id != id
    ensures r.Failure? ==> r.error == ContainerNotFound(id)
  {
    match Seqs.FindIndex(cs, (c: Container) => c.id == id)
    case Some(i) => Success(cs[i])
    case None => Failure(ContainerNotFound(id))
  }

  /** Drops every container with this identifier and keeps the rest in order. */
  function RemoveContainerById(cs: seq<Container>, id: string): (r: seq<Container>)
    ensures forall c: Container :: c in r <==> c in cs && c.id != id
    ensures forall c: Container :: c.id != id ==> multiset(r)[c] == multiset(cs)[c]
  {
    var keep := (c: Container) => c.id != id;
    Seqs.FilterMultiset(cs, keep);
    Seqs.Filter(cs, keep)
  }

  /** Removal works piecewise, so the survivors keep their relative order. */
  lemma {:induction false} RemoveContainerByIdKeepsOrder(a: seq<Container>, b: seq<Container>, id: string)
    ensures RemoveContainerById(a + b, id) == RemoveContainerById(a, id) + RemoveContainerById(b, id)
  {
    var keep := (c: Container) => c.id != id;
    Seqs.FilterConcat(a, b, keep);
  }

  /** Keeps exactly the containers that `other` contains (by identifier), in order. */
  function RemoveContainersNotIn(cs: seq<Container>, other: seq<Container>): (r: seq<Container>)
    ensures forall c: Container :: c in r <==> c in cs && exists i :: 0 <= i < |other| && other[i].id == c.id
    ensures forall c: Container :: ContainsContainer(other, c) ==> multiset(r)[c] == multiset(cs)[c]
  {
    var keep := (c: Container) => ContainsContainer(other, c);
    Seqs.FilterMultiset(cs, keep);
    Seqs.Filter(cs, keep)
  }

  /** Filtering works piecewise, so the kept containers keep their order. */
  lemma {:induction false} RemoveContainersNotInKeepsOrder(a: seq<Container>, b: seq<Container>, other: seq<Container>)
    ensures RemoveContainersNotIn(a + b, other) == RemoveContainersNotIn(a, other) + RemoveContainersNotIn(b, other)
  {
    var keep := (c: Container) => ContainsContainer(other, c);
    Seqs.FilterConcat(a, b, keep);
  }

  /** The order `orderByName` sorts by, lifted from an order on names. */
  function ByName(nameLe: (string, string) -> bool): (Container, Container) -> bool {
    (a: Container, b: Container) => nameLe(a.name, b.name)
  }

  lemma {:induction false} ByNameIsTotalPreorder(nameLe: (string, string) -> bool)
    requires Sorting.TotalPreorder(nameLe)
    ensures Sorting.TotalPreorder(ByName(nameLe))
  {
    var le := ByName(nameLe);
    forall x, y ensures le(x, y) || le(y, x) {
      assert nameLe(x.name, y.name) || nameLe(y.name, x.name);
    }
    forall x, y, z | le(x, y) && le(y, z) ensures le(x, z) {
      assert nameLe(x.name, y.name) && nameLe(y.name, z.name);
    }
  }

  /** Stable sort by name under the collation order `nameLe` (`localeCompare`):
      a permutation of the input whose names are in order. */
  function OrderByName(cs: seq<Container>, nameLe: (string, string) -> bool): (r: seq<Container>)
    requires Sorting.TotalPreorder(nameLe)
    ensures multiset(r) == multiset(cs)
    ensures forall i, j :: 0 <= i < j < |r| ==> nameLe(r[i].name, r[j].name)
  {
    ByNameIsTotalPreorder(nameLe);
    Sorting.SortBySorted(cs, ByName(nameLe));
    var r := Sorting.SortBy(cs, ByName(nameLe));
    assert forall i, j :: 0 <= i < j < |r| ==> ByName(nameLe)(r[i], r[j]);
    r
  }
}
