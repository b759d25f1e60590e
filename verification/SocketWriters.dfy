/** The rows of the socket machine against the writers: in a finished push, each shard has
    been credited with just the rows the writers' walks put there. */
module SocketWriters {
  import opened Options
  import opened RoundRobin
  import opened Sorting
  import opened Tally
  import opened SocketRun
  import opened SocketInvariants
  import W = Writer

  /** The rows a batch adds to shard `k`: none unless it was counted. */
  function Credit(b: Batch, k: nat): nat {
    if b.status.Counted? then W.Times(b.rows, k) else 0
  }

  function Credits(bs: seq<Batch>, k: nat): nat {
    if bs == [] then 0 else Credit(bs[0], k) + Credits(bs[1..], k)
  }

  // ----- the row counts of a run

  ghost predicate RowsInv(c: Config, s: State) {
    |s.rows| == c.shards && forall k: nat :: k < c.shards ==> s.rows[k] == Credits(s.batches, k)
  }

  lemma {:induction false} BumpTimes(rows: seq<nat>, shards: seq<nat>, k: nat)
    requires k < |rows|
    ensures Bump(rows, shards)[k] == rows[k] + W.Times(shards, k)
  {
    if shards != [] {
      var init, last := shards[..|shards| - 1], shards[|shards| - 1];
      BumpTimes(rows, init, k);
      W.TimesSnoc(init, last, k);
      assert init + [last] == shards;
    }
  }

  lemma {:induction false} CreditsUpdate(bs: seq<Batch>, b: nat, x: Batch, k: nat)
    requires b < |bs|
    ensures Credits(bs[b := x], k) == Credits(bs, k) - Credit(bs[b], k) + Credit(x, k)
  {
    if b == 0 {
      assert bs[b := x][1..] == bs[1..];
    } else {
      CreditsUpdate(bs[1..], b - 1, x, k);
      assert bs[b := x][1..] == bs[1..][b - 1 := x];
    }
  }

  lemma {:induction false} CreditsSnoc(bs: seq<Batch>, x: Batch, k: nat)
    ensures Credits(bs + [x], k) == Credits(bs, k) + Credit(x, k)
  {
    if bs == [] {
      assert [x][1..] == [];
    } else {
      CreditsSnoc(bs[1..], x, k);
      assert (bs + [x])[1..] == bs[1..] + [x];
    }
  }

  lemma StepRows(c: Config, s: State, step: Step)
    requires Valid(c) && Enabled(c, s, step) && RowsInv(c, s)
    ensures RowsInv(c, Do(c, s, step))
  {
    hide W.Times, InWindow;
    var t := Do(c, s, step);
    forall k: nat | k < c.shards ensures t.rows[k] == Credits(t.batches, k) {
      match step
      case Stamp(_) => CreditsSnoc(s.batches, t.batches[|s.batches|], k);
      case Commit(b) => CreditsUpdate(s.batches, b, t.batches[b], k);
      case Fail(b) => CreditsUpdate(s.batches, b, t.batches[b], k);
      case Ack(b) =>
        BumpTimes(s.rows, s.batches[b].rows, k);
        CreditsUpdate(s.batches, b, t.batches[b], k);
      case _ =>
    }
  }

  lemma {:induction false} RunRows(c: Config, steps: seq<Step>)
    requires Valid(c) && Exec(c, steps).Some?
    ensures RowsInv(c, Exec(c, steps).value)
  {
    if steps != [] {
      RunRows(c, steps[..|steps| - 1]);
      StepRows(c, Exec(c, steps[..|steps| - 1]).value, steps[|steps| - 1]);
    }
  }

  // ----- one writer's batches

  /** `mine` is what a writer that met `events` stamped, from step `next` of its walk: a
      batch for each tick, up to the deadline or the insert that failed. */
  predicate Met(events: seq<W.Event>, mine: seq<Batch>, next: nat, batch: nat, shards: nat)
    requires shards > 0
  {
    if events == [] || events[0].expired then mine == []
    else
      && mine != [] && mine[0].rows == W.Walk(next, batch, shards) && mine[0].stamp == events[0].stamp
      && (mine[0].status.Failed? <==> !events[0].ok)
      && if events[0].ok then Met(events[1..], mine[1..], next + batch, batch, shards) else |mine| == 1
  }

  /** The fate of a batch agrees with the window. */
  predicate Settled(b: Batch, from: int, to: int) {
    !b.status.InFlight? && (!b.status.Failed? ==> (b.status.Counted? <==> InWindow(from, to, b.stamp)))
  }

  lemma {:induction false} MetHits(events: seq<W.Event>, mine: seq<Batch>, next: nat, batch: nat, shards: nat,
                                   from: int, to: int, k: nat)
    requires shards > 0 && Met(events, mine, next, batch, shards)
    requires forall i :: 0 <= i < |mine| ==> Settled(mine[i], from, to)
    ensures Credits(mine, k) == W.Times(W.Hits(events, next, batch, shards, from, to), k)
  {
    if events != [] && !events[0].expired && events[0].ok {
      var rest := W.Hits(events[1..], next + batch, batch, shards, from, to);
      MetHits(events[1..], mine[1..], next + batch, batch, shards, from, to, k);
      assert Settled(mine[0], from, to);
      W.TimesConcat(mine[0].rows, rest, k);
      assert [] + rest == rest;
    }
  }

  // ----- all of them

  /** The batches of the push that writer `w` stamped. */
  function Mine(bs: seq<Batch>, owner: seq<nat>, w: nat): (r: seq<Batch>)
    requires |owner| == |bs|
    ensures forall b :: b in r ==> b in bs && b.timed
  {
    if bs == [] then []
    else (if bs[0].timed && owner[0] == w then [bs[0]] else []) + Mine(bs[1..], owner[1..], w)
  }

  function Shelves(bs: seq<Batch>, owner: seq<nat>, writers: nat): (r: seq<seq<Batch>>)
    requires |owner| == |bs|
    ensures |r| == writers
  {
    seq(writers, w requires 0 <= w < writers => Mine(bs, owner, w))
  }

  function CreditsAll(lists: seq<seq<Batch>>, k: nat): nat {
    if lists == [] then 0 else Credits(lists[0], k) + CreditsAll(lists[1..], k)
  }

  lemma {:induction false} OneListMore(a: seq<seq<Batch>>, b: seq<seq<Batch>>, w: int, x: int, k: nat)
    requires |a| == |b|
    requires forall i :: 0 <= i < |a| ==> Credits(a[i], k) == Credits(b[i], k) + (if i == w then x else 0)
    ensures CreditsAll(a, k) == CreditsAll(b, k) + (if 0 <= w < |a| then x else 0)
  {
    if a != [] {
      OneListMore(a[1..], b[1..], w - 1, x, k);
    }
  }

  /** Only batches of the push are counted, so its owners share out every row there is. */
  lemma {:induction false} OwnersShareAll(bs: seq<Batch>, owner: seq<nat>, writers: nat, k: nat)
    requires |owner| == |bs|
    requires forall i :: 0 <= i < |bs| ==> if bs[i].timed then owner[i] < writers else !bs[i].status.Counted?
    ensures CreditsAll(Shelves(bs, owner, writers), k) == Credits(bs, k)
  {
    var a := Shelves(bs, owner, writers);
    if bs == [] {
      OneListMore(a, a, -1, 0, k);
      NoCredits(a, k);
    } else {
      var b := Shelves(bs[1..], owner[1..], writers);
      var w: int := if bs[0].timed then owner[0] else -1;
      OwnersShareAll(bs[1..], owner[1..], writers, k);
      forall i: nat | i < writers
        ensures Credits(a[i], k) == Credits(b[i], k) + (if i == w then Credit(bs[0], k) else 0)
      {
        assert [] + b[i] == b[i];
        assert i == w ==> a[i] == [bs[0]] + b[i] && a[i][1..] == b[i];
      }
      OneListMore(a, b, w, Credit(bs[0], k), k);
    }
  }

  lemma {:induction false} NoCredits(lists: seq<seq<Batch>>, k: nat)
    requires forall i :: 0 <= i < |lists| ==> lists[i] == []
    ensures CreditsAll(lists, k) == 0
  {
    if lists != [] { NoCredits(lists[1..], k); }
  }

  /** `owner` says which writer stamped each batch, and writer `w` met `logs[w]`. */
  ghost predicate Pushed(c: Config, bs: seq<Batch>, owner: seq<nat>, total: nat, want: nat, logs: seq<seq<W.Event>>)
    requires Held(c) > 0
  {
    && |owner| == |bs|
    && (forall i :: 0 <= i < |bs| && bs[i].timed ==> owner[i] < |logs|)
    && forall w: nat :: w < |logs| ==> PushedBy(c, Mine(bs, owner, w), total, want, logs[w], |logs|, w)
  }

  ghost predicate PushedBy(c: Config, mine: seq<Batch>, total: nat, want: nat, log: seq<W.Event>, writers: nat, w: nat)
    requires Held(c) > 0 && writers > 0
  {
    var share := Dealt(total, writers, w);
    var batch := W.BatchOf(share, want);
    if share == 0 then mine == [] else Met(log, mine, W.StartOf(w, batch), batch, Held(c))
  }

  lemma {:induction false} SameAll(lists: seq<seq<Batch>>, hits: seq<seq<nat>>, k: nat)
    requires |lists| == |hits|
    requires forall i :: 0 <= i < |lists| ==> Credits(lists[i], k) == W.Times(hits[i], k)
    ensures CreditsAll(lists, k) == W.TimesAll(hits, k)
  {
    if lists != [] { SameAll(lists[1..], hits[1..], k); }
  }

  /** After the push every batch is settled. */
  lemma AllSettled(c: Config, s: State, i: nat)
    requires Valid(c) && Inv(c, s) && (s.phase.Drained? || s.phase.Tallying?) && i < |s.batches| && s.batches[i].timed
    ensures Settled(s.batches[i], s.from, s.to)
  {
    assert BatchOk(c, s, s.batches[i]);
  }

  /** In every run whose push is over, the row count of each shard is what the writers
      count there between them, each on its own walk over the shards. */
  lemma RowsAreTheWritersHits(c: Config, steps: seq<Step>, owner: seq<nat>, total: nat, want: nat,
                              logs: seq<seq<W.Event>>, k: nat)
    requires Valid(c) && Held(c) > 0 && k < c.shards && Exec(c, steps).Some?
    requires var s := Exec(c, steps).value;
             (s.phase.Drained? || s.phase.Tallying?) && Pushed(c, s.batches, owner, total, want, logs)
    ensures var s := Exec(c, steps).value;
            && |s.rows| == c.shards
            && s.rows[k] == W.TimesAll(W.PushHits(total, want, Held(c), s.from, s.to, logs), k)
  {
    var s := Exec(c, steps).value;
    RunInv(c, steps);
    RunRows(c, steps);
    hide Exec, Met, Mine, Credits, W.Times, W.Hits;
    var lists, hits := Shelves(s.batches, owner, |logs|), W.PushHits(total, want, Held(c), s.from, s.to, logs);
    forall i | 0 <= i < |s.batches|
      ensures if s.batches[i].timed then owner[i] < |logs| else !s.batches[i].status.Counted?
    {
      assert BatchOk(c, s, s.batches[i]);
    }
    OwnersShareAll(s.batches, owner, |logs|, k);
    forall w: nat | w < |logs| ensures Credits(lists[w], k) == W.Times(hits[w], k) {
      OneWritersRows(c, s, lists[w], total, want, logs[w], |logs|, w, k);
    }
    SameAll(lists, hits, k);
  }

  lemma OneWritersRows(c: Config, s: State, mine: seq<Batch>, total: nat, want: nat, log: seq<W.Event>,
                       writers: nat, w: nat, k: nat)
    requires Valid(c) && Inv(c, s) && (s.phase.Drained? || s.phase.Tallying?)
    requires Held(c) > 0 && writers > 0 && PushedBy(c, mine, total, want, log, writers, w)
    requires forall b :: b in mine ==> b in s.batches && b.timed
    ensures Credits(mine, k) == W.Times(W.HitsOf(total, writers, w, want, Held(c), s.from, s.to, log), k)
  {
    var share := Dealt(total, writers, w);
    if share != 0 {
      forall j | 0 <= j < |mine| ensures Settled(mine[j], s.from, s.to) {
        var i :| 0 <= i < |s.batches| && s.batches[i] == mine[j];
        AllSettled(c, s, i);
      }
      var batch := W.BatchOf(share, want);
      MetHits(log, mine, W.StartOf(w, batch), batch, Held(c), s.from, s.to, k);
    }
  }

  // ----- evenness

  ghost predicate InOrder(bs: seq<Batch>) {
    forall i, j :: 0 <= i < j < |bs| ==> bs[i].stamp <= bs[j].stamp
  }

  /** Batches are listed in the order of their stamps. */
  lemma {:induction false} RunInOrder(c: Config, steps: seq<Step>)
    requires Valid(c) && Exec(c, steps).Some?
    ensures InOrder(Exec(c, steps).value.batches)
  {
    if steps != [] {
      var init := steps[..|steps| - 1];
      RunInv(c, init);
      RunInOrder(c, init);
      StepInOrder(c, Exec(c, init).value, steps[|steps| - 1]);
    }
  }

  lemma StepInOrder(c: Config, s: State, step: Step)
    requires Valid(c) && BatchInv(c, s) && Enabled(c, s, step) && InOrder(s.batches)
    ensures InOrder(Do(c, s, step).batches)
  {
    hide BumpSheet, SheetPairs, Wants, Quiescent;
    assert forall i :: 0 <= i < |s.batches| ==> BatchOk(c, s, s.batches[i]);
  }

  lemma {:induction false} MineInOrder(bs: seq<Batch>, owner: seq<nat>, w: nat)
    requires |owner| == |bs| && InOrder(bs)
    ensures InOrder(Mine(bs, owner, w))
  {
    if bs != [] {
      var rest := Mine(bs[1..], owner[1..], w);
      MineInOrder(bs[1..], owner[1..], w);
      assert forall b :: b in rest ==> bs[0].stamp <= b.stamp;
    }
  }

  /** The ticks of a writer's log that became batches. */
  function Ticks(log: seq<W.Event>, mine: seq<Batch>): seq<W.Event> {
    if |mine| <= |log| then log[..|mine|] else log
  }

  lemma {:induction false} OnlyTicksCount(log: seq<W.Event>, mine: seq<Batch>, next: nat, batch: nat, shards: nat)
    requires shards > 0 && Met(log, mine, next, batch, shards)
    ensures |mine| <= |log| && forall i :: 0 <= i < |mine| ==> log[i].stamp == mine[i].stamp
    ensures Met(Ticks(log, mine), mine, next, batch, shards)
  {
    if log != [] && !log[0].expired && log[0].ok {
      OnlyTicksCount(log[1..], mine[1..], next + batch, batch, shards);
      assert log[..|mine|][1..] == log[1..][..|mine| - 1];
    }
  }

  lemma PushedInTicks(c: Config, mine: seq<Batch>, total: nat, want: nat, log: seq<W.Event>, writers: nat, w: nat)
    requires Held(c) > 0 && writers > 0 && PushedBy(c, mine, total, want, log, writers, w) && InOrder(mine)
    ensures PushedBy(c, mine, total, want, Ticks(log, mine), writers, w) && W.Nondecreasing(Ticks(log, mine))
  {
    var share := Dealt(total, writers, w);
    if share != 0 {
      var batch := W.BatchOf(share, want);
      OnlyTicksCount(log, mine, W.StartOf(w, batch), batch, Held(c));
    }
  }

  /** So a push never favours one subscribed shard over another by more rows than there
      are writers, whatever failed and wherever the window fell. */
  lemma RowsAreEven(c: Config, steps: seq<Step>, owner: seq<nat>, total: nat, want: nat,
                    logs: seq<seq<W.Event>>, k: nat, m: nat)
    requires Valid(c) && k < Held(c) && m < Held(c) && Exec(c, steps).Some?
    requires var s := Exec(c, steps).value;
             (s.phase.Drained? || s.phase.Tallying?) && Pushed(c, s.batches, owner, total, want, logs)
    ensures var s := Exec(c, steps).value;
            |s.rows| == c.shards && s.rows[k] <= s.rows[m] + |logs|
  {
    var s := Exec(c, steps).value;
    RunInOrder(c, steps);
    var bs := s.batches;
    var ticks := seq(|logs|, w requires 0 <= w < |logs| => Ticks(logs[w], Mine(bs, owner, w)));
    hide Exec, Met, Mine, Ticks, PushedBy, W.Times, W.Hits;
    forall w: nat | w < |logs|
      ensures PushedBy(c, Mine(bs, owner, w), total, want, ticks[w], |ticks|, w) && W.Nondecreasing(ticks[w])
    {
      MineInOrder(bs, owner, w);
      PushedInTicks(c, Mine(bs, owner, w), total, want, logs[w], |logs|, w);
    }
    RowsAreTheWritersHits(c, steps, owner, total, want, ticks, k);
    RowsAreTheWritersHits(c, steps, owner, total, want, ticks, m);
    W.PushIsEven(total, want, Held(c), s.from, s.to, ticks, k, m);
  }
}
