/** Runs of the socket machine carried to their published number, and from them the
    exact condition for that number over every clean run. */
module SocketRuns {
  import opened Options
  import opened RoundRobin
  import opened Sums
  import opened Tally
  import opened SocketRun
  import opened SocketInvariants
  import opened SocketTheorems

  // ----- building a run

  lemma Then(c: Config, steps: seq<Step>, s: State, step: Step)
    requires Valid(c) && Exec(c, steps) == Some(s) && Enabled(c, s, step)
    ensures Exec(c, steps + [step]) == Some(Do(c, s, step))
  {
    assert (steps + [step])[..|steps|] == steps;
  }

  /** The control thread opens the window. */
  lemma OpenWindow(c: Config, steps: seq<Step>, s: State) returns (more: seq<Step>, t: State)
    requires Valid(c) && Exec(c, steps) == Some(s) && Enabled(c, s, EndWarmup)
    ensures Exec(c, more) == Some(t)
    ensures t == s.(phase := Timed, open := s.clock, from := s.clock, to := s.clock + c.duration)
  {
    var s1 := Do(c, s, EndWarmup);
    Then(c, steps, s, EndWarmup);
    var s2 := Do(c, s1, StoreFrom);
    Then(c, steps + [EndWarmup], s1, StoreFrom);
    t := Do(c, s2, StoreTo);
    Then(c, steps + [EndWarmup] + [StoreFrom], s2, StoreTo);
    more := steps + [EndWarmup] + [StoreFrom] + [StoreTo];
  }

  /** A first insert of one row, sent, committed and acknowledged. */
  lemma InsertOne(c: Config, steps: seq<Step>, s: State, shard: nat) returns (more: seq<Step>, t: State)
    requires Valid(c) && Exec(c, steps) == Some(s) && Enabled(c, s, Stamp([shard])) && s.batches == []
    ensures Exec(c, more) == Some(t)
    ensures var yes := InWindow(s.from, s.to, s.clock);
            t == s.(batches := [Batch([shard], s.clock, s.phase.Timed?, if yes then Counted else Skipped)],
                    rows := if yes then Bump(s.rows, [shard]) else s.rows)
  {
    var s1 := Do(c, s, Stamp([shard]));
    Then(c, steps, s, Stamp([shard]));
    var s2 := Do(c, s1, Commit(0));
    Then(c, steps + [Stamp([shard])], s1, Commit(0));
    t := Do(c, s2, Ack(0));
    Then(c, steps + [Stamp([shard])] + [Commit(0)], s2, Ack(0));
    more := steps + [Stamp([shard])] + [Commit(0)] + [Ack(0)];
  }

  /** One frame delivered, and tallied because its stamp is in the window. */
  lemma ReadOne(c: Config, steps: seq<Step>, s: State, p: Pair) returns (more: seq<Step>, t: State)
    requires Valid(c) && Exec(c, steps) == Some(s) && Enabled(c, s, Deliver(p))
    requires InWindow(s.from, s.to, s.batches[p.b].stamp)
    ensures Exec(c, more) == Some(t)
    ensures t == s.(sent := s.sent + {p}, counted := s.counted + {p}, sheets := BumpSheet(s.sheets, p.s))
  {
    var s1 := Do(c, s, Deliver(p));
    Then(c, steps, s, Deliver(p));
    var s2 := Do(c, s1, LoadFrom(p.s));
    Then(c, steps + [Deliver(p)], s1, LoadFrom(p.s));
    t := Do(c, s2, LoadToAndTally(p.s));
    Then(c, steps + [Deliver(p)] + [LoadFrom(p.s)], s2, LoadToAndTally(p.s));
    more := steps + [Deliver(p)] + [LoadFrom(p.s)] + [LoadToAndTally(p.s)];
    assert s2.readers - {p.s} == s.readers;
  }

  /** Every sheet not merged yet, one after another. */
  lemma {:induction false} MergeRest(c: Config, steps: seq<Step>, s: State) returns (more: seq<Step>, t: State)
    requires Valid(c) && Exec(c, steps) == Some(s) && s.phase.Tallying? && s.phase.k <= SHEETS
    ensures Exec(c, more) == Some(t)
    ensures t == s.(phase := Tallying(SHEETS), merged := t.merged, delivered := t.delivered)
    ensures t.merged == s.merged + set p | p in s.counted && p.s % SHEETS >= s.phase.k
    decreases SHEETS - s.phase.k
  {
    if s.phase.k == SHEETS {
      more, t := steps, s;
      assert (set p | p in s.counted && p.s % SHEETS >= SHEETS) == {};
    } else {
      Then(c, steps, s, MergeSheet);
      more, t := MergeRest(c, steps + [MergeSheet], Do(c, s, MergeSheet));
    }
  }

  /** The push and the drain end and the tally is taken: what was counted is what is
      published. */
  lemma FinishRun(c: Config, steps: seq<Step>, s: State) returns (more: seq<Step>, t: State)
    requires Valid(c) && Exec(c, steps) == Some(s) && Enabled(c, s, EndPush)
    ensures Exec(c, more) == Some(t) && Finished(t)
    ensures t == s.(phase := Tallying(SHEETS), merged := s.counted, delivered := |s.counted|)
  {
    RunInv(c, steps);
    var s1 := Do(c, s, EndPush);
    Then(c, steps, s, EndPush);
    var s2 := Do(c, s1, EndDrain);
    Then(c, steps + [EndPush], s1, EndDrain);
    more, t := MergeRest(c, steps + [EndPush] + [EndDrain], s2);
    RunInv(c, more);
    assert t.merged == s.counted;
  }

  // ----- when the published number is right

  predicate MissingIsUnread(c: Config, s: State)
    requires Valid(c)
  {
    |s.rows| == c.shards && Missing(c, s) == |Owed(c, s.batches) - s.merged|
  }

  lemma BumpOne(n: nat, k: nat)
    requires k < n
    ensures Bump(seq(n, _ => 0), [k]) == Unit(n, k)
  {
    assert [k][..0] == [];
  }

  /** One row written in the window and read by nobody: it reads as missing once for
      every socket its shard is believed to have, and is owed to those it has. */
  lemma OneRowRun(c: Config, k: nat) returns (steps: seq<Step>, s: State)
    requires Valid(c) && k < Held(c)
    ensures Exec(c, steps) == Some(s) && Finished(s) && CleanRun(s) && |s.rows| == c.shards && s.merged == {}
    ensures Missing(c, s) == Shares(c)[k] && |Owed(c, s.batches)| == Joined(c)[k]
  {
    steps, s := OpenWindow(c, [], Init(c));
    steps, s := InsertOne(c, steps, s, k);
    BumpOne(c.shards, k);
    steps, s := FinishRun(c, steps, s);
    RunInv(c, steps);
    UnitWeight(c.shards, k, Shares(c));
    UnitWeight(c.shards, k, Joined(c));
  }

  /** The shards that are written to decide for all of them. */
  lemma WrittenShardsDecide(c: Config)
    requires Valid(c) && forall k :: 0 <= k < Held(c) ==> Shares(c)[k] == Joined(c)[k]
    ensures Balanced(c)
  {
    var h, n := |c.joined|, c.shards;
    if h < n {
      forall k | 0 <= k < n ensures Shares(c)[k] == if k < h then 1 else 0 {
        QuotRem(h, n, 0, h);
      }
      ShardsPartition(c, h);
      OnesSum(Joined(c), h);
      var low := set s | s in c.joined && s % n < h;
      SameSize(low, c.joined);
      forall k | h <= k < n ensures Joined(c)[k] == 0 {
        forall s ensures s !in OnShard(c, k) {
          assert s in c.joined ==> s in low;
        }
        assert OnShard(c, k) == {};
      }
    }
  }

  lemma {:induction false} OnesSum(s: seq<nat>, n: nat)
    requires n <= |s| && forall k :: 0 <= k < n ==> s[k] == 1
    ensures SeqSum(s[..n]) == n
  {
    if n > 0 {
      OnesSum(s, n - 1);
      SumUpTo(s, n);
    }
  }

  /** Wherever joins are not balanced, some clean run publishes a wrong number. */
  lemma UnbalancedIsExposed(c: Config) returns (steps: seq<Step>)
    requires Valid(c) && !Balanced(c)
    ensures Exec(c, steps).Some? && Finished(Exec(c, steps).value) && CleanRun(Exec(c, steps).value)
    ensures !MissingIsUnread(c, Exec(c, steps).value)
  {
    if forall k :: 0 <= k < Held(c) ==> Shares(c)[k] == Joined(c)[k] {
      WrittenShardsDecide(c);
    }
    var k :| 0 <= k < Held(c) && Shares(c)[k] != Joined(c)[k];
    var s;
    steps, s := OneRowRun(c, k);
    assert Owed(c, s.batches) - s.merged == Owed(c, s.batches);
  }

  /** The published missing is the number of owed deliveries nobody read on every clean
      run, whatever was lost or late, if and only if the ids that are up are evenly
      dealt. */
  lemma ExactOnEveryCleanRunIff(c: Config)
    requires Valid(c)
    ensures (forall steps ::
               Exec(c, steps).Some? && Finished(Exec(c, steps).value) && CleanRun(Exec(c, steps).value) ==>
                 MissingIsUnread(c, Exec(c, steps).value))
            <==> EvenlyDealt(c)
  {
    BalancedIffEvenlyDealt(c);
    if Balanced(c) {
      forall steps | Exec(c, steps).Some? && Finished(Exec(c, steps).value) && CleanRun(Exec(c, steps).value)
        ensures MissingIsUnread(c, Exec(c, steps).value)
      {
        MissingIsExactIff(c, steps);
      }
    } else {
      var steps := UnbalancedIsExposed(c);
    }
  }

  // ----- two published numbers that are wrong

  /** One shard, one socket, one warm-up row stamped in the microsecond the
      window then opens: its late delivery is counted and nobody owes it. */
  lemma ClockStandsStill() returns (steps: seq<Step>)
    ensures var c := Config(1, {0}, 10);
            && Balanced(c) && Exec(c, steps).Some?
            && var s := Exec(c, steps).value;
               Finished(s) && Owed(c, s.batches) == {} && |s.rows| == 1 && Missing(c, s) == -1
  {
    var c := Config(1, {0}, 10);
    var p := Pair(0, 0, 0);
    var s;
    BalancedByOne();
    steps, s := InsertOne(c, [], Init(c), 0);
    steps, s := OpenWindow(c, steps, s);
    assert p.s in c.joined;
    steps, s := ReadOne(c, steps, s, p);
    steps, s := FinishRun(c, steps, s);
    NothingOwed(c, s);
    NothingWeighs(s.rows, Shares(c));
  }

  lemma BalancedByOne()
    ensures Balanced(Config(1, {0}, 10))
  {
    PrefixIsBalanced(Config(1, {0}, 10), 1);
  }

  lemma NothingOwed(c: Config, s: State)
    requires Valid(c) && forall i :: 0 <= i < |s.batches| ==> !s.batches[i].status.Counted?
    ensures Owed(c, s.batches) == {}
  {
    forall p ensures p !in Owed(c, s.batches) {
      InOwed(c, s.batches, p);
    }
  }

  /** Two shards, and the first of two ids refused: the one row, written to the
      one shard the run believes is held, is owed to nobody and reads as missing. */
  lemma RefusedOutOfOrder() returns (steps: seq<Step>)
    ensures var c := Config(2, {1}, 10);
            && !EvenlyDealt(c) && Exec(c, steps).Some?
            && var s := Exec(c, steps).value;
               Finished(s) && CleanRun(s) && Owed(c, s.batches) == {} && |s.rows| == 2 && Missing(c, s) == 1
  {
    var c := Config(2, {1}, 10);
    var s;
    assert OnShard(c, 0) == {} && OnShard(c, 1) == {1};
    assert Joined(c)[0] == 0 && Joined(c)[1] == 1 && Shares(c)[0] == 1;
    steps, s := OneRowRun(c, 0);
  }
}
