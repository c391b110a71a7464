/** Remainders of natural numbers. */
module Modular {

  lemma DivUnique(q: nat, r: nat, m: nat, n: nat)
    requires r < n && m == n * q + r
    ensures m % n == r && m / n == q
  {
    Multiple(n, q - m / n);
    assert m % n - r == n * (q - m / n);
  }

  /** No multiple of n but zero lies strictly between -n and n. */
  lemma Multiple(n: nat, d: int)
    ensures d >= 1 ==> n * d >= n
    ensures d <= -1 ==> n * d <= 0 - n
  {
  }

  lemma ModApart(a: nat, b: nat, n: nat)
    requires a < b < a + n
    ensures a % n != b % n
  {
    Multiple(n, b / n - a / n);
    assert b - a == n * (b / n - a / n) + (b % n - a % n);
  }

  lemma Wrap(k: nat, n: nat)
    requires n > 0
    ensures (k % n + 1) % n == (k + 1) % n
  {
    var q := k / n;
    assert k == n * q + k % n;
    if k % n + 1 < n {
      DivUnique(q, k % n + 1, k + 1, n);
    } else {
      assert n * q + n == n * (q + 1);
      DivUnique(q + 1, 0, k + 1, n);
    }
  }
}
