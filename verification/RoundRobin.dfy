/** Dealing things out round robin, which is how socket ids get their shards, how
    writers get their rows and how a writer walks its shards. */
module RoundRobin {

  /** How many of the first `m` things dealt to `n` hands end up in hand `k`. */
  function Dealt(m: nat, n: nat, k: nat): nat
    requires n > 0
  {
    m / n + (if k < m % n then 1 else 0)
  }

  lemma QuotRem(x: int, m: int, q: int, r: int)
    requires m > 0 && x == q * m + r && 0 <= r < m
    ensures x / m == q && x % m == r
  {
    var d := x / m - q;
    assert d * m == r - x % m by {
      assert x == x / m * m + x % m;
    }
    assert d >= 1 ==> d * m >= m;
    assert d <= -1 ==> d * m <= -m;
  }

  /** Thing `m` goes to hand `m % n`, and to no other. */
  lemma DealtStep(m: nat, n: nat, k: nat)
    requires k < n
    ensures Dealt(m + 1, n, k) == Dealt(m, n, k) + (if m % n == k then 1 else 0)
  {
    var q, r := m / n, m % n;
    assert m == q * n + r;
    if r + 1 < n {
      QuotRem(m + 1, n, q, r + 1);
    } else {
      assert (q + 1) * n == q * n + n;
      QuotRem(m + 1, n, q + 1, 0);
    }
  }
}
