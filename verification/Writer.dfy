/** sockets/writer.go: how the rows a second are shared between writers, and how
    evenly one writer's walk over the shards spreads the rows that count. */
module Writer {
  import opened Sums
  import opened Sorting
  import opened RoundRobin
  import opened Tally

  /** The shares of the first `n` writers. */
  function ShareSum(rows: nat, writers: nat, n: nat): nat
    requires writers > 0
  {
    if n == 0 then 0 else ShareSum(rows, writers, n - 1) + Dealt(rows, writers, n - 1)
  }

  /** The shares are the whole. */
  lemma SharesSumToRows(rows: nat, writers: nat)
    requires writers > 0
    ensures ShareSum(rows, writers, writers) == rows
  {
    FirstShares(rows, writers, writers);
    assert writers * (rows / writers) + rows % writers == rows;
  }

  lemma {:induction false} FirstShares(rows: nat, writers: nat, n: nat)
    requires writers > 0
    ensures ShareSum(rows, writers, n) == n * (rows / writers) + (if n < rows % writers then n else rows % writers)
  {
    if n > 0 {
      FirstShares(rows, writers, n - 1);
      assert n * (rows / writers) == (n - 1) * (rows / writers) + rows / writers;
    }
  }

  /** The batch a writer sends at a time, never more than its share. */
  function BatchOf(share: nat, want: nat): (batch: nat)
    ensures batch <= share && batch <= want && (batch == share || batch == want)
  {
    if want > share then share else want
  }

  /** Every writer starts its walk one batch after the one before it. */
  function StartOf(index: nat, batch: nat): nat
    decreases index
  {
    if index == 0 then 0 else StartOf(index - 1, batch) + batch
  }

  lemma {:induction false} StartIsProduct(index: nat, batch: nat)
    ensures StartOf(index, batch) == index * batch
  {
    if index > 0 {
      StartIsProduct(index - 1, batch);
      assert index * batch == (index - 1) * batch + batch;
    }
  }

  // ----- one writer

  /** What one tick met: a passed deadline, the stamp it took, whether the insert
      was acknowledged. Ticks stop coming when the context is done. */
  datatype Event = Event(expired: bool, stamp: int, ok: bool)

  /** `n` rows starting at step `a` of the walk. */
  function Walk(a: nat, n: nat, shards: nat): (r: seq<nat>)
    requires shards > 0
    ensures |r| == n
  {
    if n == 0 then [] else Walk(a, n - 1, shards) + [(a + n - 1) % shards]
  }

  /** The shard of every row the writer counts: batches stamped inside the window,
      up to the deadline or the first insert that fails. */
  function Hits(events: seq<Event>, next: nat, batch: nat, shards: nat, from: int, to: int): seq<nat>
    requires shards > 0
  {
    if events == [] || events[0].expired || !events[0].ok then []
    else
      (if InWindow(from, to, events[0].stamp) then Walk(next, batch, shards) else [])
      + Hits(events[1..], next + batch, batch, shards, from, to)
  }

  /** Every tick went through: no deadline and no failure yet. */
  predicate Going(events: seq<Event>) {
    forall i :: 0 <= i < |events| ==> !events[i].expired && events[i].ok
  }

  /** What tick `e` adds after ticks that all went through: its batch, as many steps into the
      walk as those sent, if it too goes through with a stamp in the window, and otherwise
      nothing; and behind one that does not go through nothing is added at all. */
  lemma {:induction false} HitsOfOneMore(before: seq<Event>, e: Event, later: seq<Event>, next: nat, batch: nat, shards: nat,
                                         from: int, to: int)
    requires shards > 0 && Going(before)
    ensures var hits, more := Hits(before, next, batch, shards, from, to), Hits(before + [e], next, batch, shards, from, to);
            var counted := !e.expired && e.ok && from != 0 && from <= e.stamp <= to;
            && more == hits + (if counted then Walk(next + |before| * batch, batch, shards) else [])
            && (e.expired || !e.ok ==> Hits(before + [e] + later, next, batch, shards, from, to) == hits)
    decreases |before|
  {
    hide Walk;
    var all, more := before + [e] + later, before + [e];
    if before == [] {
      assert more == [e] && all[0] == e && [e][1..] == [];
      var w := Walk(next, batch, shards);
      assert w + [] == w && [] + w == w;
    } else {
      var now := if InWindow(from, to, before[0].stamp) then Walk(next, batch, shards) else [];
      assert all[1..] == before[1..] + [e] + later && more[1..] == before[1..] + [e];
      HitsOfOneMore(before[1..], e, later, next + batch, batch, shards, from, to);
      assert next + batch + (|before| - 1) * batch == next + |before| * batch;
    }
  }

  /** The walk goes round the shards from any step on. */
  lemma {:induction false} WalkIsRound(a: nat, n: nat, shards: nat, i: nat)
    requires shards > 0 && i < n
    ensures Walk(a, n, shards)[i] == (a + i) % shards
  {
    if i < n - 1 { WalkIsRound(a, n - 1, shards, i); }
  }

  /** How many of the hits are on shard `k`. */
  function Times(hits: seq<nat>, k: nat): nat {
    Count(hits, On(k))
  }

  function On(k: nat): nat -> bool {
    (s: nat) => s == k
  }

  lemma TimesConcat(a: seq<nat>, b: seq<nat>, k: nat)
    ensures Times(a + b, k) == Times(a, k) + Times(b, k)
  {
    CountConcat(a, b, On(k));
  }

  lemma TimesSnoc(a: seq<nat>, x: nat, k: nat)
    ensures Times(a + [x], k) == Times(a, k) + (if x == k then 1 else 0)
  {
    TimesConcat(a, [x], k);
    CountOne(x, On(k));
  }

  class Counters {
    var rows: nat
    var shard: map<int, int>

    constructor ()
      ensures rows == 0 && shard == map[]
    {
      rows, shard := 0, map[];
    }

    /** One writer's loop over a push. The window cannot move while it runs. */
    method Pump(total: nat, writers: nat, index: nat, want: nat, shards: seq<nat>, from: int, to: int,
                events: seq<Event>)
      requires writers > 0 && index < writers && want > 0 && shards != []
      requires forall i :: 0 <= i < |shards| ==> shards[i] == i
      modifies this
      ensures var hits := HitsOf(total, writers, index, want, |shards|, from, to, events);
              && rows == old(rows) + |hits|
              && forall k: nat :: Get(shard, k) == old(Get(shard, k)) + Times(hits, k)
    {
      var share := total / writers;
      if index < total % writers {
        share := share + 1;
      }
      if share <= 0 {
        return;
      }
      var batch := want;
      if batch > share {
        batch := share;
      }
      StartIsProduct(index, batch);
      Drive(index * batch, batch, shards, from, to, events);
    }

    /** The ticking part of the loop, from step `start` of the walk. */
    method Drive(start: nat, batch: nat, shards: seq<nat>, from: int, to: int, events: seq<Event>)
      requires shards != [] && forall i :: 0 <= i < |shards| ==> shards[i] == i
      modifies this
      ensures var hits := Hits(events, start, batch, |shards|, from, to);
              && rows == old(rows) + |hits|
              && forall k: nat :: Get(shard, k) == old(Get(shard, k)) + Times(hits, k)
    {
      assert forall k: nat :: Times([], k) == 0;
      hide Times, Walk;
      var next: nat := start;
      ghost var all := Hits(events, start, batch, |shards|, from, to);
      ghost var done: seq<nat> := [];
      var i := 0;
      while i < |events|
        invariant 0 <= i <= |events|
        invariant all == done + Hits(events[i..], next, batch, |shards|, from, to)
        invariant rows == old(rows) + |done|
        invariant forall k: nat :: Get(shard, k) == old(Get(shard, k)) + Times(done, k)
      {
        var e := events[i];
        assert events[i..][0] == e && events[i..][1..] == events[i + 1..];
        if e.expired {
          assert all == done;
          return;
        }
        var sent := Fill(next, batch, shards);
        next := next + batch;
        if !e.ok {
          assert all == done;
          return;
        }
        if InWindow(from, to, e.stamp) {
          Note(sent);
          forall k: nat { TimesConcat(done, sent, k); }
          done := done + sent;
        }
        i := i + 1;
      }
      assert all == done;
    }

    method Fill(next: nat, batch: nat, shards: seq<nat>) returns (sent: seq<nat>)
      requires shards != [] && forall i :: 0 <= i < |shards| ==> shards[i] == i
      ensures sent == Walk(next, batch, |shards|)
    {
      sent := [];
      for j := 0 to batch
        invariant sent == Walk(next, j, |shards|)
      {
        sent := sent + [shards[(next + j) % |shards|]];
      }
    }

    method Note(sent: seq<nat>)
      modifies this
      ensures rows == old(rows) + |sent|
      ensures forall k: nat :: Get(shard, k) == old(Get(shard, k)) + Times(sent, k)
    {
      rows := rows + |sent|;
      for j := 0 to |sent|
        invariant rows == old(rows) + |sent|
        invariant forall k: nat :: Get(shard, k) == old(Get(shard, k)) + Times(sent[..j], k)
      {
        assert sent[..j + 1] == sent[..j] + [sent[j]];
        forall k: nat { TimesSnoc(sent[..j], sent[j], k); }
        shard := shard[sent[j] := Get(shard, sent[j]) + 1];
      }
      assert sent[..|sent|] == sent;
    }
  }

  // ----- evenness

  predicate Nondecreasing(events: seq<Event>) {
    forall i, j :: 0 <= i < j < |events| ==> events[i].stamp <= events[j].stamp
  }

  lemma {:induction false} WalkConcat(a: nat, n: nat, m: nat, shards: nat)
    requires shards > 0
    ensures Walk(a, n, shards) + Walk(a + n, m, shards) == Walk(a, n + m, shards)
  {
    if m == 0 {
      assert Walk(a, n, shards) + [] == Walk(a, n, shards);
    } else {
      WalkConcat(a, n, m - 1, shards);
      assert a + n + m - 1 == a + (n + m) - 1;
    }
  }

  /** With stamps that never go back, the rows that count are one unbroken
      stretch of the walk. */
  lemma {:induction false} HitsAreAStretch(events: seq<Event>, next: nat, batch: nat, shards: nat, from: int, to: int)
    returns (a: nat, n: nat)
    requires shards > 0 && Nondecreasing(events)
    ensures Hits(events, next, batch, shards, from, to) == Walk(a, n, shards)
    ensures n > 0 && events != [] && InWindow(from, to, events[0].stamp) ==> a == next
  {
    a, n := next, 0;
    if events != [] && !events[0].expired && events[0].ok {
      a, n := HitsAreAStretch(events[1..], next + batch, batch, shards, from, to);
      if InWindow(from, to, events[0].stamp) {
        if n == 0 {
          assert Walk(next, batch, shards) + [] == Walk(next, batch, shards);
          a, n := next, batch;
        } else {
          assert events[1..] != [] && InWindow(from, to, events[1].stamp) by {
            if !InWindow(from, to, events[1].stamp) { PastTheWindow(events[1..], next + batch, batch, shards, from, to); }
          }
          WalkConcat(next, batch, n, shards);
          a, n := next, batch + n;
        }
      } else if n == 0 {
        a := next;
      }
    }
  }

  lemma {:induction false} PastTheWindow(events: seq<Event>, next: nat, batch: nat, shards: nat, from: int, to: int)
    requires shards > 0 && Nondecreasing(events) && (events != [] ==> from == 0 || events[0].stamp > to)
    ensures Hits(events, next, batch, shards, from, to) == []
  {
    if events != [] {
      assert |events| > 1 ==> events[0].stamp <= events[1].stamp;
      PastTheWindow(events[1..], next + batch, batch, shards, from, to);
    }
  }

  lemma {:induction false} WalkTimes(a: nat, n: nat, shards: nat, k: nat)
    requires k < shards
    ensures Times(Walk(a, n, shards), k) == Dealt(a + n, shards, k) - Dealt(a, shards, k)
  {
    if n > 0 {
      WalkTimes(a, n - 1, shards, k);
      TimesSnoc(Walk(a, n - 1, shards), (a + n - 1) % shards, k);
      DealtStep(a + n - 1, shards, k);
    }
  }

  /** One writer: any two shards are within one row of each other. */
  lemma OneWriterIsEven(events: seq<Event>, next: nat, batch: nat, shards: nat, from: int, to: int, k: nat, m: nat)
    requires k < shards && m < shards && Nondecreasing(events)
    ensures var hits := Hits(events, next, batch, shards, from, to);
            Times(hits, k) <= Times(hits, m) + 1
  {
    var a, n := HitsAreAStretch(events, next, batch, shards, from, to);
    WalkTimes(a, n, shards, k);
    WalkTimes(a, n, shards, m);
  }

  /** The shard of every row writer `index` of a push counts. */
  function HitsOf(total: nat, writers: nat, index: nat, want: nat, shards: nat, from: int, to: int, events: seq<Event>): seq<nat>
    requires writers > 0 && shards > 0
  {
    var share := Dealt(total, writers, index);
    var batch := BatchOf(share, want);
    if share == 0 then [] else Hits(events, StartOf(index, batch), batch, shards, from, to)
  }

  /** A writer's walk starts one batch further for each writer before it. */
  lemma WriterStartsInTurn(total: nat, writers: nat, index: nat, want: nat, shards: nat, from: int, to: int, events: seq<Event>)
    requires writers > 0 && shards > 0 && index < writers && want > 0
    ensures var share := total / writers + (if index < total % writers then 1 else 0);
            var batch, hits := if share < want then share else want, HitsOf(total, writers, index, want, shards, from, to, events);
            && (share == 0 ==> hits == [])
            && (share > 0 ==> hits == Hits(events, index * batch, batch, shards, from, to))
  {
    StartIsProduct(index, BatchOf(Dealt(total, writers, index), want));
  }

  function TimesAll(writers: seq<seq<nat>>, k: nat): nat {
    if writers == [] then 0 else Times(writers[0], k) + TimesAll(writers[1..], k)
  }

  ghost predicate WithinOne(hits: seq<nat>, shards: nat) {
    forall k, m :: 0 <= k < shards && 0 <= m < shards ==> Times(hits, k) <= Times(hits, m) + 1
  }

  /** All of them: any two shards are within as many rows as there are writers. */
  lemma {:induction false} WritersAreEven(writers: seq<seq<nat>>, shards: nat, k: nat, m: nat)
    requires k < shards && m < shards && forall i :: 0 <= i < |writers| ==> WithinOne(writers[i], shards)
    ensures TimesAll(writers, k) <= TimesAll(writers, m) + |writers|
  {
    if writers != [] {
      assert WithinOne(writers[0], shards);
      WritersAreEven(writers[1..], shards, k, m);
    }
  }

  /** What every writer of a push counts, when writer `i` meets `logs[i]`. */
  function PushHits(total: nat, want: nat, shards: nat, from: int, to: int, logs: seq<seq<Event>>): (r: seq<seq<nat>>)
    requires shards > 0
    ensures |r| == |logs|
  {
    seq(|logs|, i requires 0 <= i < |logs| => HitsOf(total, |logs|, i, want, shards, from, to, logs[i]))
  }

  /** A push whose clocks never go back: whatever fails and wherever the window falls,
      no two shards differ by more rows than there are writers. */
  lemma PushIsEven(total: nat, want: nat, shards: nat, from: int, to: int, logs: seq<seq<Event>>, k: nat, m: nat)
    requires k < shards && m < shards && forall i :: 0 <= i < |logs| ==> Nondecreasing(logs[i])
    ensures var hits := PushHits(total, want, shards, from, to, logs);
            TimesAll(hits, k) <= TimesAll(hits, m) + |logs|
  {
    var hits := PushHits(total, want, shards, from, to, logs);
    forall i | 0 <= i < |logs| ensures WithinOne(hits[i], shards) {
      forall a, b | 0 <= a < shards && 0 <= b < shards ensures Times(hits[i], a) <= Times(hits[i], b) + 1 {
        var share := Dealt(total, |logs|, i);
        var batch := BatchOf(share, want);
        OneWriterIsEven(logs[i], StartOf(i, batch), batch, shards, from, to, a, b);
      }
    }
    WritersAreEven(hits, shards, k, m);
  }
}
