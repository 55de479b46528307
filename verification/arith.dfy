/** Facts about Euclidean remainder that the cyclic behaviours rely on. */
module Arith {

  lemma {:induction false} MulAtLeast(a: int, n: int)
    requires a >= 1 && n > 0
    ensures a * n >= n
    decreases a
  {
    if a > 1 {
      MulAtLeast(a - 1, n);
      assert a * n == (a - 1) * n + n;
    }
  }

  /** Quotient and remainder are determined by any quotient-remainder
      decomposition. */
  lemma {:induction false} ModUnique(x: int, n: int, q: int, r: int)
    requires n > 0 && 0 <= r < n && x == q * n + r
    ensures x % n == r
    ensures x / n == q
  {
    var q', r' := x / n, x % n;
    assert x == q' * n + r';
    assert (q - q') * n == r' - r;
    if q > q' {
      MulAtLeast(q - q', n);
    } else if q < q' {
      MulAtLeast(q' - q, n);
    }
  }

  /** One more factor `n` adds one more `k`. */
  lemma {:induction false} MulStep(k: nat, n: nat)
    requires n > 0
    ensures k * n == k * (n - 1) + k
  {
    assert k * n == k * ((n - 1) + 1);
  }
}
