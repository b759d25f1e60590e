/** What the published `deliveries_missing` means, over every run of the socket
    machine, and exactly when it is what it claims to be. */
module SocketTheorems {
  import opened RoundRobin
  import opened Sums
  import opened Tally
  import opened SocketRun
  import opened SocketInvariants
  import opened Options

  // ----- when the multiplication is exact

  /** The even split the multiplication works from is the split that joined. */
  predicate Balanced(c: Config)
    requires Valid(c)
  {
    Shares(c) == Joined(c)
  }

  function Unit(n: nat, k: nat): seq<nat> {
    seq(n, i => if i == k then 1 else 0)
  }

  lemma {:induction false} UnitWeight(n: nat, k: nat, w: seq<nat>)
    requires |w| == n
    ensures Weighted(Unit(n, k), w) == if k < n then w[k] else 0
  {
    if n > 0 {
      assert Unit(n, k)[..n - 1] == Unit(n - 1, k);
      UnitWeight(n - 1, k, w[..n - 1]);
    }
  }

  /** Rows times sockets is what those rows are owed, whatever rows were written,
      exactly when the joins are balanced. */
  lemma MultiplicationExact(c: Config)
    requires Valid(c)
    ensures Balanced(c) <==>
            forall rows: seq<nat> :: |rows| == c.shards ==> Weighted(rows, Shares(c)) == Weighted(rows, Joined(c))
  {
    if forall rows: seq<nat> :: |rows| == c.shards ==> Weighted(rows, Shares(c)) == Weighted(rows, Joined(c)) {
      forall k | 0 <= k < c.shards ensures Shares(c)[k] == Joined(c)[k] {
        UnitWeight(c.shards, k, Shares(c));
        UnitWeight(c.shards, k, Joined(c));
      }
    }
  }

  /** The first `n` socket ids. */
  function FirstIds(n: nat): (r: set<nat>)
    ensures |r| == n && forall s: nat :: s in r <==> s < n
  {
    if n == 0 then {} else FirstIds(n - 1) + {n - 1}
  }

  /** If the ids that joined are the first so many, none of them skipped, the
      joins are balanced. */
  lemma PrefixIsBalanced(c: Config, n: nat)
    requires Valid(c) && c.joined == FirstIds(n)
    ensures Balanced(c)
  {
    forall k | 0 <= k < c.shards ensures Dealt(|c.joined|, c.shards, k) == |OnShard(c, k)| {
      PrefixShare(n, c.shards, k);
      assert OnShard(c, k) == FirstOn(n, c.shards, k);
    }
  }

  lemma {:induction false} PrefixShare(n: nat, m: nat, k: nat)
    requires k < m
    ensures |FirstOn(n, m, k)| == Dealt(n, m, k)
  {
    hide Dealt, FirstOn;
    if n == 0 {
      NoneFirst(m, k);
    } else {
      PrefixShare(n - 1, m, k);
      FirstOnGrows(n - 1, m, k);
      DealtStep(n - 1, m, k);
    }
  }

  /** Of those, the ones on shard `k` of `m`. */
  function FirstOn(n: nat, m: nat, k: nat): set<nat>
    requires m > 0
  {
    set s | s in FirstIds(n) && s % m == k
  }

  lemma NoneFirst(m: nat, k: nat)
    requires k < m
    ensures FirstOn(0, m, k) == {} && Dealt(0, m, k) == 0
  {
  }

  lemma FirstOnGrows(n: nat, m: nat, k: nat)
    requires k < m
    ensures |FirstOn(n + 1, m, k)| == |FirstOn(n, m, k)| + (if n % m == k then 1 else 0)
  {
    var was, now := FirstOn(n, m, k), FirstOn(n + 1, m, k);
    assert now == if n % m == k then was + {n} else was;
  }

  /** What a caller can look at: the shard counts never rise from one shard to
      the next, and the first is at most one above the last. */
  predicate EvenlyDealt(c: Config)
    requires Valid(c)
  {
    var j := Joined(c);
    (forall k :: 0 < k < |j| ==> j[k] <= j[k - 1]) && j[0] <= j[|j| - 1] + 1
  }

  lemma SumUpTo(s: seq<nat>, n: nat)
    requires 0 < n <= |s|
    ensures SeqSum(s[..n]) == SeqSum(s[..n - 1]) + s[n - 1]
  {
    assert s[..n] == s[..n - 1] + [s[n - 1]];
    SeqSumConcat(s[..n - 1], [s[n - 1]]);
  }

  lemma {:induction false} ShardsPartition(c: Config, n: nat)
    requires Valid(c) && n <= c.shards
    ensures SeqSum(Joined(c)[..n]) == |set s | s in c.joined && s % c.shards < n|
  {
    var upTo := set s | s in c.joined && s % c.shards < n;
    if n == 0 {
      assert upTo == {};
    } else {
      ShardsPartition(c, n - 1);
      var below := set s | s in c.joined && s % c.shards < n - 1;
      SumUpTo(Joined(c), n);
      assert upTo == below + OnShard(c, n - 1) && below !! OnShard(c, n - 1);
    }
  }

  /** A nonincreasing list of at most two adjacent values is fixed by its sum. */
  lemma {:induction false} TwoLevels(j: seq<nat>, low: nat, n: nat) returns (high: nat)
    requires n <= |j| && (forall k :: 0 < k < |j| ==> j[k] <= j[k - 1])
    requires forall k :: 0 <= k < n ==> low <= j[k] <= low + 1
    ensures high <= n && SeqSum(j[..n]) == low * n + high
    ensures forall k :: 0 <= k < n ==> j[k] == low + (if k < high then 1 else 0)
  {
    if n == 0 {
      high := 0;
    } else {
      high := TwoLevels(j, low, n - 1);
      SumUpTo(j, n);
      assert low * n == low * (n - 1) + low;
      if j[n - 1] == low + 1 {
        assert n > 1 ==> j[n - 1] <= j[n - 2];
        high := high + 1;
      }
    }
  }

  lemma {:induction false} Falling(j: seq<nat>, a: nat, b: nat)
    requires (forall k :: 0 < k < |j| ==> j[k] <= j[k - 1]) && a <= b < |j|
    ensures j[b] <= j[a]
  {
    if a < b { Falling(j, a, b - 1); }
  }

  lemma EvenShape(j: seq<nat>) returns (low: nat, high: nat)
    requires j != [] && (forall k :: 0 < k < |j| ==> j[k] <= j[k - 1]) && j[0] <= j[|j| - 1] + 1
    ensures high < |j| && SeqSum(j) == low * |j| + high
    ensures forall k :: 0 <= k < |j| ==> j[k] == low + (if k < high then 1 else 0)
  {
    var n := |j|;
    low := j[n - 1];
    forall k | 0 <= k < n ensures low <= j[k] <= low + 1 {
      Falling(j, k, n - 1);
      Falling(j, 0, k);
    }
    high := TwoLevels(j, low, n);
    assert j[..n] == j;
    assert j[n - 1] == low + (if n - 1 < high then 1 else 0);
  }

  lemma EvenlyDealtBalances(c: Config)
    requires Valid(c) && EvenlyDealt(c)
    ensures Balanced(c)
  {
    var j := Joined(c);
    var low, high := EvenShape(j);
    assert |c.joined| == SeqSum(j) by {
      ShardsPartition(c, c.shards);
      assert j[..c.shards] == j;
      assert c.joined == set s | s in c.joined && s % c.shards < c.shards;
    }
    SharesFrom(c, j, low, high);
  }

  lemma SharesFrom(c: Config, j: seq<nat>, low: nat, high: nat)
    requires Valid(c) && |j| == c.shards && high < c.shards && |c.joined| == low * c.shards + high
    requires forall k :: 0 <= k < |j| ==> j[k] == low + (if k < high then 1 else 0)
    ensures Shares(c) == j
  {
    QuotRem(|c.joined|, c.shards, low, high);
  }

  lemma BalancedIffEvenlyDealt(c: Config)
    requires Valid(c)
    ensures Balanced(c) <==> EvenlyDealt(c)
  {
    if EvenlyDealt(c) { EvenlyDealtBalances(c); }
  }

  /** With balanced joins the shards written to are exactly those with a socket. */
  lemma WrittenShardsAreJoined(c: Config, k: nat)
    requires Valid(c) && Balanced(c) && k < c.shards
    ensures OnShard(c, k) != {} <==> k < Held(c)
  {
    assert Joined(c)[k] == Shares(c)[k] == Dealt(|c.joined|, c.shards, k);
    DealtPositive(|c.joined|, c.shards, k);
    if |OnShard(c, k)| == 0 { assert OnShard(c, k) == {}; }
  }

  lemma DealtPositive(m: nat, n: nat, k: nat)
    requires k < n
    ensures Dealt(m, n, k) > 0 <==> k < m
  {
    if m < n {
      QuotRem(m, n, 0, m);
    } else {
      var q, r := m / n, m % n;
      assert m == q * n + r;
      assert q <= 0 ==> q * n <= 0;
    }
  }

  // ----- the published number

  /** In every reachable state, whatever was refused, dropped, failed or late:
      missing is what the even split got wrong, plus what is owed and not in the
      merged sheets, less what the sheets hold that nobody owed. */
  lemma MissingIdentity(c: Config, steps: seq<Step>)
    requires Valid(c) && Exec(c, steps).Some?
    ensures var s := Exec(c, steps).value;
            && |s.rows| == c.shards
            && Missing(c, s) == (Weighted(s.rows, Shares(c)) - Weighted(s.rows, Joined(c)))
                                + |Owed(c, s.batches) - s.merged| - |s.merged - Owed(c, s.batches)|
  {
    RunInv(c, steps);
    var s := Exec(c, steps).value;
    Excess(Owed(c, s.batches), s.merged);
  }

  lemma Excess<T>(a: set<T>, b: set<T>)
    ensures |a| - |b| == |a - b| - |b - a|
  {
    assert a == (a - b) + (a * b);
    assert b == (b - a) + (a * b);
  }

  /** A delivery in the sheets that no counted row owes. */
  predicate Phantom(s: State, p: Pair) {
    && p in s.merged && p.b < |s.batches|
    && (s.batches[p.b].status.Failed? || (!s.batches[p.b].timed && s.batches[p.b].stamp == s.open))
  }

  /** There are two ways to be one: the row's insert reported failure and had
      committed all the same, or it is a warm-up row stamped in the very
      microsecond the window opened. */
  lemma PhantomsAre(c: Config, steps: seq<Step>, p: Pair)
    requires Valid(c) && Exec(c, steps).Some? && Finished(Exec(c, steps).value)
    ensures var s := Exec(c, steps).value;
            p in s.merged - Owed(c, s.batches) <==> Phantom(s, p)
  {
    RunInv(c, steps);
    var s := Exec(c, steps).value;
    InOwed(c, s.batches, p);
    if p in s.merged {
      assert PairOk(c, s, p);
      assert BatchOk(c, s, s.batches[p.b]);
    }
  }

  /** With balanced joins, missing is exactly the owed deliveries that were not
      read, if and only if the sheets hold no phantom. */
  lemma MissingIsExactIff(c: Config, steps: seq<Step>)
    requires Valid(c) && Balanced(c) && Exec(c, steps).Some? && Finished(Exec(c, steps).value)
    ensures var s := Exec(c, steps).value;
            && |s.rows| == c.shards
            && (Missing(c, s) == |Owed(c, s.batches) - s.merged| <==> forall p :: !Phantom(s, p))
  {
    MissingIdentity(c, steps);
    var s := Exec(c, steps).value;
    var extra := s.merged - Owed(c, s.batches);
    forall p ensures p in extra <==> Phantom(s, p) {
      PhantomsAre(c, steps, p);
    }
    if extra != {} {
      var p :| p in extra;
      assert Phantom(s, p);
    }
  }

  /** What a caller can see: no insert reported failure, and every warm-up stamp
      is before the window's first microsecond. */
  predicate CleanRun(s: State) {
    forall i :: 0 <= i < |s.batches| ==>
      !s.batches[i].status.Failed? && (!s.batches[i].timed ==> s.batches[i].stamp < s.open)
  }

  /** On a clean run with the ids joined a prefix, missing is exactly the owed
      deliveries that were not read, and nothing is missing just when every one
      of them was. */
  lemma MissingOnACleanRun(c: Config, steps: seq<Step>, n: nat)
    requires Valid(c) && c.joined == FirstIds(n)
    requires Exec(c, steps).Some? && Finished(Exec(c, steps).value) && CleanRun(Exec(c, steps).value)
    ensures var s := Exec(c, steps).value;
            && |s.rows| == c.shards
            && Missing(c, s) == |Owed(c, s.batches) - s.merged|
            && (Missing(c, s) == 0 <==> Owed(c, s.batches) <= s.merged)
  {
    PrefixIsBalanced(c, n);
    MissingIsExactIff(c, steps);
    var s := Exec(c, steps).value;
    var unread := Owed(c, s.batches) - s.merged;
    if unread == {} { assert Owed(c, s.batches) <= s.merged; }
    if Owed(c, s.batches) <= s.merged { assert unread == {}; }
  }

  /** At every moment of every run, including between the two stores that open
      the window, no reader counts a warm-up row stamped before it opened. */
  lemma WarmupIsNeverCounted(c: Config, steps: seq<Step>, p: Pair)
    requires Valid(c) && Exec(c, steps).Some?
    ensures var s := Exec(c, steps).value;
            p in s.counted ==> p.b < |s.batches| && (s.batches[p.b].timed || s.batches[p.b].stamp == s.open)
  {
    RunInv(c, steps);
    var s := Exec(c, steps).value;
    if p in s.counted {
      assert PairOk(c, s, p);
      assert BatchOk(c, s, s.batches[p.b]);
    }
  }
}
