/** Division and remainder facts shared by the wrap-around proofs. */
module Arith {

  lemma ProductNonNegative(a: int, b: int)
    requires 0 <= a && 0 <= b
    ensures 0 <= a * b
  {
  }

  lemma NonzeroMultiple(k: int, n: int)
    requires k != 0 && 0 <= n
    ensures k * n >= n || k * n <= -n
  {
    if k > 0 {
      ProductNonNegative(k - 1, n);
      assert k * n == (k - 1) * n + n;
    } else {
      ProductNonNegative(-k - 1, n);
      assert -(k * n) == (-k - 1) * n + n;
    }
  }

  lemma DivModUnique(x: nat, n: nat, q: nat, r: nat)
    requires 0 < n && r < n && x == q * n + r
    ensures x / n == q && x % n == r
  {
    var k := q - x / n;
    assert x == (x / n) * n + x % n;
    assert k * n == q * n - (x / n) * n;
    if k != 0 { NonzeroMultiple(k, n); }
  }

  /** Two numbers less than n apart have different remainders. */
  lemma RemaindersDiffer(t: nat, u: nat, n: nat)
    requires t < u < t + n
    ensures t % n != u % n
  {
    var k := u / n - t / n;
    assert t == (t / n) * n + t % n && u == (u / n) * n + u % n;
    assert k * n == (u / n) * n - (t / n) * n;
    assert k * n == u - t - (u % n - t % n);
    if k != 0 { NonzeroMultiple(k, n); }
  }

  lemma RemainderStep(t: nat, n: nat)
    requires 0 < n
    ensures (t % n + 1) % n == (t + 1) % n
  {
    var q, r := t / n, t % n;
    assert t == q * n + r;
    if r + 1 == n {
      assert t + 1 == (q + 1) * n;
      DivModUnique(t + 1, n, q + 1, 0);
      DivModUnique(n, n, 1, 0);
    } else {
      DivModUnique(t + 1, n, q, r + 1);
      DivModUnique(r + 1, n, 0, r + 1);
    }
  }
}
