/** Order-preserving list operations used throughout the model
    (`Array.prototype.filter`, `map`, `find` and numeric `reduce`). */
module Seqs {

  import opened Wrappers

  /** The elements of `s` that satisfy `p`, in their original order. */
  function Filter<T(!new)>(s: seq<T>, p: T -> bool): (r: seq<T>)
    ensures |r| <= |s|
    ensures forall x :: x in r <==> x in s && p(x)
  {
    if |s| == 0 then []
    else
      var rest := Filter(s[1..], p);
      assert s == [s[0]] + s[1..];
      if p(s[0]) then [s[0]] + rest else rest
  }

  /** Filtering keeps every occurrence of a satisfying element and drops
      every occurrence of the others. */
  lemma {:induction false} FilterMultiset<T(!new)>(s: seq<T>, p: T -> bool)
    ensures forall x :: multiset(Filter(s, p))[x] == if p(x) then multiset(s)[x] else 0
  {
    if |s| > 0 {
      FilterMultiset(s[1..], p);
      assert s == [s[0]] + s[1..];
    }
  }

  /** Filtering distributes over concatenation: the relative order of the
      kept elements is the order they had in the input. */
  lemma {:induction false} FilterConcat<T(!new)>(a: seq<T>, b: seq<T>, p: T -> bool)
    ensures Filter(a + b, p) == Filter(a, p) + Filter(b, p)
  {
    if |a| == 0 {
      assert a + b == b;
    } else {
      var ab := a + b;
      assert ab[0] == a[0];
      assert ab[1..] == a[1..] + b;
      FilterConcat(a[1..], b, p);
      if p(a[0]) {
        calc {
          Filter(ab, p);
          [a[0]] + Filter(a[1..] + b, p);
          [a[0]] + (Filter(a[1..], p) + Filter(b, p));
          ([a[0]] + Filter(a[1..], p)) + Filter(b, p);
        }
      }
    }
  }

  /** Filtering with a predicate every element satisfies keeps everything. */
  lemma {:induction false} FilterAll<T(!new)>(s: seq<T>, p: T -> bool)
    requires forall i :: 0 <= i < |s| ==> p(s[i])
    ensures Filter(s, p) == s
  {
    if |s| > 0 {
      FilterAll(s[1..], p);
    }
  }

  /** Index of the first element satisfying `p`, if any (`Array.prototype.find`). */
  function FindIndex<T>(s: seq<T>, p: T -> bool): (r: Option<nat>)
    ensures r.Some? ==> r.value < |s| && p(s[r.value])
    ensures r.Some? ==> forall j :: 0 <= j < r.value ==> !p(s[j])
    ensures r.None? <==> forall j :: 0 <= j < |s| ==> !p(s[j])
  {
    if |s| == 0 then None
    else if p(s[0]) then Some(0)
    else match FindIndex(s[1..], p)
      case None => None
      case Some(i) => Some(i + 1)
  }

  /** Element-wise image of a sequence (`Array.prototype.map`). */
  function Map<T, U>(s: seq<T>, f: T -> U): (r: seq<U>)
    ensures |r| == |s|
    ensures forall i :: 0 <= i < |s| ==> r[i] == f(s[i])
  {
    if |s| == 0 then [] else [f(s[0])] + Map(s[1..], f)
  }

  lemma {:induction false} MapConcat<T, U>(a: seq<T>, b: seq<T>, f: T -> U)
    ensures Map(a + b, f) == Map(a, f) + Map(b, f)
  {
  }

  /** Taking one element out of a sequence takes its image out of the image. */
  lemma {:induction false} MapRemove<T, U>(b: seq<T>, k: nat, f: T -> U)
    requires k < |b|
    ensures multiset(Map(b, f)) == multiset(Map(b[..k] + b[k + 1..], f)) + multiset{f(b[k])}
  {
    var lo, hi := b[..k], b[k + 1..];
    assert b == lo + [b[k]] + hi;
    MapConcat(lo + [b[k]], hi, f);
    MapConcat(lo, [b[k]], f);
    MapConcat(lo, hi, f);
    assert Map([b[k]], f) == [f(b[k])];
  }

  /** Mapping respects permutations: equal multisets have equal image multisets. */
  lemma {:induction false} MapPermutation<T, U>(a: seq<T>, b: seq<T>, f: T -> U)
    requires multiset(a) == multiset(b)
    ensures multiset(Map(a, f)) == multiset(Map(b, f))
  {
    if |a| == 0 {
      assert |b| == 0;
    } else {
      assert a[0] in multiset(b);
      var k :| 0 <= k < |b| && b[k] == a[0];
      var b' := b[..k] + b[k + 1..];
      assert b == b[..k] + [b[k]] + b[k + 1..];
      assert a == [a[0]] + a[1..];
      assert multiset(a[1..]) == multiset(a) - multiset{a[0]};
      assert multiset(b') == multiset(b) - multiset{b[k]};
      MapPermutation(a[1..], b', f);
      MapPermutationStep(a, b, k, f);
    }
  }

  lemma {:induction false} MapPermutationStep<T, U>(a: seq<T>, b: seq<T>, k: nat, f: T -> U)
    requires |a| > 0 && k < |b| && b[k] == a[0]
    requires multiset(Map(a[1..], f)) == multiset(Map(b[..k] + b[k + 1..], f))
    ensures multiset(Map(a, f)) == multiset(Map(b, f))
  {
    MapRemove(b, k, f);
    assert Map(a, f) == [f(a[0])] + Map(a[1..], f);
  }

  /** Element-wise image under a fallible function: the first failure, or
      every image (`map` with a callback that may throw). */
  function MapResult<T, U, E>(s: seq<T>, f: T -> Result<U, E>): (r: Result<seq<U>, E>)
    ensures r.Success? <==> forall i :: 0 <= i < |s| ==> f(s[i]).Success?
    ensures r.Success? ==> |r.value| == |s|
    ensures r.Success? ==> forall i :: 0 <= i < |s| ==> r.value[i] == f(s[i]).value
  {
    if |s| == 0 then Success([])
    else
      match f(s[0])
      case Failure(e) => Failure(e)
      case Success(x) =>
        match MapResult(s[1..], f)
        case Failure(e) =>
          assert forall i :: 1 <= i < |s| ==> s[1..][i - 1] == s[i];
          Failure(e)
        case Success(rest) => Success([x] + rest)
  }

  /** Filtering by two predicates that agree on every element gives the same result. */
  lemma {:induction false} FilterCongruent<T(!new)>(s: seq<T>, p: T -> bool, q: T -> bool)
    requires forall i :: 0 <= i < |s| ==> p(s[i]) == q(s[i])
    ensures Filter(s, p) == Filter(s, q)
  {
    if |s| > 0 {
      FilterCongruent(s[1..], p, q);
    }
  }

  /** Filtering out every element leaves nothing. */
  lemma {:induction false} FilterNone<T(!new)>(s: seq<T>, p: T -> bool)
    requires forall i :: 0 <= i < |s| ==> !p(s[i])
    ensures Filter(s, p) == []
  {
    if |s| > 0 {
      FilterNone(s[1..], p);
    }
  }

  /** Filtering a single element keeps it exactly when it satisfies `p`. */
  lemma {:induction false} FilterOne<T(!new)>(x: T, p: T -> bool)
    ensures Filter([x], p) == if p(x) then [x] else []
  {
    assert [x][1..] == [];
  }

  /** Filtering a sequence with a known first element. */
  lemma {:induction false} FilterCons<T(!new)>(x: T, rest: seq<T>, p: T -> bool)
    ensures Filter([x] + rest, p) == (if p(x) then [x] else []) + Filter(rest, p)
  {
    assert ([x] + rest)[0] == x;
    assert ([x] + rest)[1..] == rest;
  }

  /** A pointwise relation between two sequences extends to a new first pair. */
  lemma {:induction false} PointwiseCons<A, B>(xs: seq<A>, y: B, ys: seq<B>, rel: (A, B) -> bool)
    requires |xs| == |ys| + 1 && rel(xs[0], y)
    requires forall i :: 0 <= i < |ys| ==> rel(xs[1..][i], ys[i])
    ensures forall i :: 0 <= i < |xs| ==> rel(xs[i], ([y] + ys)[i])
  {
    forall i | 0 <= i < |xs| ensures rel(xs[i], ([y] + ys)[i]) {
      if i > 0 {
        assert xs[i] == xs[1..][i - 1];
      }
    }
  }

  /** Elements `i * k` up to `(i + 1) * k` of `s` are `block`. */
  predicate BlockIs<T(==)>(s: seq<T>, k: nat, i: nat, block: seq<T>)
  {
    i * k <= (i + 1) * k <= |s| && s[i * k..(i + 1) * k] == block
  }

  /** Block `i` of `first + rest`, with blocks of `first`'s length `k` and
      `n` whole blocks in `rest`: block 0 is `first`, block `i > 0` is block
      `i - 1` of `rest`. */
  lemma {:induction false} BlockOfCons<T>(first: seq<T>, rest: seq<T>, k: nat, n: nat, i: nat)
    requires |first| == k && |rest| == n * k && i <= n
    ensures i * k <= (i + 1) * k <= |first + rest|
    ensures i == 0 ==> (first + rest)[i * k..(i + 1) * k] == first
    ensures i > 0 ==> (i - 1) * k <= i * k <= |rest| && (first + rest)[i * k..(i + 1) * k] == rest[(i - 1) * k..i * k]
  {
    assert (i + 1) * k == i * k + k;
    assert (n - i) * k >= 0;
    assert n * k == i * k + (n - i) * k;
    if i > 0 {
      assert i * k == (i - 1) * k + k;
      assert (i - 1) * k >= 0;
      var whole, part := (first + rest)[i * k..(i + 1) * k], rest[(i - 1) * k..i * k];
      forall j | 0 <= j < k ensures whole[j] == part[j] {
        assert whole[j] == (first + rest)[i * k + j] == rest[(i - 1) * k + j];
      }
    }
  }
}
