/** What every step of a socket run keeps. */
module SocketInvariants {
  import opened Tally
  import opened SocketRun

  predicate Published(s: State) { s.phase.Timed? || s.phase.Drained? || s.phase.Tallying? }

  ghost predicate WindowInv(c: Config, s: State) {
    && s.clock >= 1 && s.open <= s.clock
    && (s.phase.Warming? ==> s.open == s.from == s.to == 0)
    && (s.phase.Opening? ==> s.open >= 1 && s.from == s.to == 0)
    && (s.phase.HalfOpen? ==> s.open == s.from >= 1 && s.to == 0)
    && (Published(s) ==> s.open == s.from >= 1 && s.to == s.open + c.duration)
  }

  ghost predicate BatchOk(c: Config, s: State, b: Batch) {
    && 1 <= b.stamp <= s.clock
    && (forall j :: 0 <= j < |b.rows| ==> b.rows[j] < c.shards)
    && (b.status.InFlight? ==> if b.timed then s.phase.Timed? else s.phase.Warming?)
    && (if b.timed then Published(s) && b.stamp >= s.open else s.phase.Warming? || b.stamp <= s.open)
    && (b.status.Counted? ==> b.timed && InWindow(s.open, s.open + c.duration, b.stamp))
    && (b.timed && b.status.Skipped? ==> !InWindow(s.open, s.open + c.duration, b.stamp))
  }

  ghost predicate BatchInv(c: Config, s: State) {
    forall i :: 0 <= i < |s.batches| ==> BatchOk(c, s, s.batches[i])
  }

  /** A frame the node really sent: a committed row, to a socket on its shard. */
  ghost predicate Genuine(c: Config, s: State, p: Pair)
    requires Valid(c)
  {
    Wants(c, s.batches, p) && Committed(s.batches[p.b]) && p in s.sent
  }

  ghost predicate ReaderOk(c: Config, s: State, k: nat, r: Reader)
    requires Valid(c)
  {
    && r.p.s == k && Genuine(c, s, r.p) && r.p !in s.counted
    && (r.Loaded? ==> r.from == 0 || (r.from == s.open && !s.phase.Warming? && !s.phase.Opening?))
  }

  ghost predicate ReaderInv(c: Config, s: State)
    requires Valid(c)
  {
    forall k :: k in s.readers ==> ReaderOk(c, s, k, s.readers[k])
  }

  /** Whatever a reader counted has a stamp inside the final window. */
  ghost predicate PairOk(c: Config, s: State, p: Pair)
    requires Valid(c)
  {
    Genuine(c, s, p) && Published(s) && InWindow(s.open, s.open + c.duration, s.batches[p.b].stamp)
  }

  ghost predicate PairInv(c: Config, s: State)
    requires Valid(c)
  {
    forall p :: p in s.counted ==> PairOk(c, s, p)
  }

  ghost predicate SheetInv(s: State) {
    |s.sheets| == SHEETS && forall k :: 0 <= k < SHEETS ==> s.sheets[k] == |SheetPairs(s.counted, k)|
  }

  ghost predicate SnapInv(s: State) {
    && s.merged <= s.counted && |s.merged| == s.delivered
    && (if s.phase.Tallying? then s.phase.k <= SHEETS && forall p :: p in s.merged ==> p.s % SHEETS < s.phase.k
        else s.merged == {})
  }

  ghost predicate RowInv(c: Config, s: State)
    requires Valid(c)
  {
    |s.rows| == c.shards && Weighted(s.rows, Joined(c)) == |Owed(c, s.batches)|
  }

  ghost predicate Inv(c: Config, s: State)
    requires Valid(c)
  {
    && WindowInv(c, s) && BatchInv(c, s) && ReaderInv(c, s) && PairInv(c, s)
    && SheetInv(s) && SnapInv(s) && RowInv(c, s)
  }

  // ----- counting what is owed

  lemma OneSocketEach(c: Config, b: nat, j: nat, shard: nat, left: set<nat>)
    ensures |set s | s in left :: Pair(b, j, s)| == |left|
  {
    var ps := set s | s in left :: Pair(b, j, s);
    if left == {} {
      assert ps == {};
    } else {
      var s :| s in left;
      var rest := set s' | s' in left - {s} :: Pair(b, j, s');
      OneSocketEach(c, b, j, shard, left - {s});
      assert ps == rest + {Pair(b, j, s)};
    }
  }

  function BatchWeight(rows: seq<nat>, w: seq<nat>): nat {
    if rows == [] then 0
    else BatchWeight(rows[..|rows| - 1], w) + (if rows[|rows| - 1] < |w| then w[rows[|rows| - 1]] else 0)
  }

  lemma {:induction false} BatchPairsSize(c: Config, b: nat, rows: seq<nat>)
    requires Valid(c) && forall j :: 0 <= j < |rows| ==> rows[j] < c.shards
    ensures |BatchPairs(c, b, rows)| == BatchWeight(rows, Joined(c))
  {
    if rows != [] {
      var init, n := rows[..|rows| - 1], |rows| - 1;
      BatchPairsSize(c, b, init);
      OneSocketEach(c, b, n, rows[n], OnShard(c, rows[n]));
      assert BatchPairs(c, b, init) !! RowPairs(c, b, n, rows[n]) by {
        forall p | p in BatchPairs(c, b, init) ensures p !in RowPairs(c, b, n, rows[n]) {
          InBatchPairs(c, b, init, p);
        }
      }
    }
  }

  lemma {:induction false} WeightedUpdate(rows: seq<nat>, w: seq<nat>, k: nat)
    requires |rows| == |w| && k < |rows|
    ensures Weighted(rows[k := rows[k] + 1], w) == Weighted(rows, w) + w[k]
  {
    var n := |rows| - 1;
    if k < n {
      WeightedUpdate(rows[..n], w[..n], k);
      assert rows[k := rows[k] + 1][..n] == rows[..n][k := rows[k] + 1];
    } else {
      assert rows[k := rows[k] + 1][..n] == rows[..n];
      assert (rows[k] + 1) * w[k] == rows[k] * w[k] + w[k];
    }
  }

  lemma {:induction false} BumpWeight(rows: seq<nat>, w: seq<nat>, shards: seq<nat>)
    requires |rows| == |w| && forall j :: 0 <= j < |shards| ==> shards[j] < |w|
    ensures Weighted(Bump(rows, shards), w) == Weighted(rows, w) + BatchWeight(shards, w)
  {
    if shards != [] {
      var init, k := shards[..|shards| - 1], shards[|shards| - 1];
      BumpWeight(rows, w, init);
      WeightedUpdate(Bump(rows, init), w, k);
    }
  }

  /** Counting batch `b` adds exactly its own pairs. */
  lemma OwedGrows(c: Config, bs: seq<Batch>, b: nat, x: Batch)
    requires Valid(c) && b < |bs| && !bs[b].status.Counted? && x == bs[b].(status := Counted)
    requires forall j :: 0 <= j < |x.rows| ==> x.rows[j] < c.shards
    ensures |Owed(c, bs[b := x])| == |Owed(c, bs)| + BatchWeight(x.rows, Joined(c))
  {
    var old', new', mine := Owed(c, bs), Owed(c, bs[b := x]), BatchPairs(c, b, x.rows);
    forall p ensures p in new' <==> p in old' || p in mine {
      InOwed(c, bs, p);
      InOwed(c, bs[b := x], p);
      InBatchPairs(c, b, x.rows, p);
    }
    assert new' == old' + mine;
    assert old' !! mine by {
      forall p | p in old' ensures p !in mine {
        InOwed(c, bs, p);
        InBatchPairs(c, b, x.rows, p);
      }
    }
    BatchPairsSize(c, b, x.rows);
  }

  /** Any other change of status owes nothing new. */
  lemma OwedSame(c: Config, bs: seq<Batch>, cs: seq<Batch>)
    requires Valid(c) && |bs| <= |cs|
    requires forall i :: 0 <= i < |bs| ==>
               bs[i].rows == cs[i].rows && (bs[i].status.Counted? <==> cs[i].status.Counted?)
    requires forall i :: |bs| <= i < |cs| ==> !cs[i].status.Counted?
    ensures Owed(c, bs) == Owed(c, cs)
  {
    forall p ensures p in Owed(c, bs) <==> p in Owed(c, cs) {
      InOwed(c, bs, p);
      InOwed(c, cs, p);
    }
  }

  // ----- the steps

  lemma InitInv(c: Config)
    requires Valid(c)
    ensures Inv(c, Init(c))
  {
    var s := Init(c);
    NothingWeighs(s.rows, Joined(c));
    forall k | 0 <= k < SHEETS ensures |SheetPairs({}, k)| == 0 {
      assert SheetPairs({}, k) == {};
    }
  }

  lemma {:induction false} NothingWeighs(rows: seq<nat>, w: seq<nat>)
    requires |rows| == |w| && forall k :: 0 <= k < |rows| ==> rows[k] == 0
    ensures Weighted(rows, w) == 0
  {
    if rows != [] { NothingWeighs(rows[..|rows| - 1], w[..|w| - 1]); }
  }

  /** Batches are only added to, and a commit is never taken back. */
  ghost predicate Extends(bs: seq<Batch>, cs: seq<Batch>) {
    && |bs| <= |cs|
    && forall i :: 0 <= i < |bs| ==>
         && cs[i].rows == bs[i].rows && cs[i].stamp == bs[i].stamp && cs[i].timed == bs[i].timed
         && (Committed(bs[i]) ==> Committed(cs[i]))
  }

  /** A step that touches only batches and row counts. */
  lemma WriterStep(c: Config, s: State, t: State)
    requires Valid(c) && Inv(c, s) && Extends(s.batches, t.batches)
    requires t == s.(batches := t.batches, rows := t.rows)
    requires BatchInv(c, t) && RowInv(c, t)
    ensures Inv(c, t)
  {
    forall p | Genuine(c, s, p) ensures Genuine(c, t, p) {
      assert s.batches[p.b].rows == t.batches[p.b].rows;
    }
    forall k | k in t.readers ensures ReaderOk(c, t, k, t.readers[k]) {
      assert ReaderOk(c, s, k, s.readers[k]);
    }
    forall p | p in t.counted ensures PairOk(c, t, p) {
      assert PairOk(c, s, p);
    }
  }

  lemma StampInv(c: Config, s: State, step: Step)
    requires Valid(c) && Inv(c, s) && Enabled(c, s, step) && step.Stamp?
    ensures Inv(c, Do(c, s, step))
  {
    var t := Do(c, s, step);
    forall i | 0 <= i < |t.batches| ensures BatchOk(c, t, t.batches[i]) {
      if i < |s.batches| { assert BatchOk(c, s, s.batches[i]); }
    }
    OwedSame(c, s.batches, t.batches);
    WriterStep(c, s, t);
  }

  /** Row counts stay in step with what is owed. */
  lemma StatusRows(c: Config, s: State, step: Step)
    requires Valid(c) && Enabled(c, s, step) && (step.Commit? || step.Fail? || step.Ack?)
    requires BatchInv(c, s) && RowInv(c, s)
    ensures RowInv(c, Do(c, s, step))
  {
    var t := Do(c, s, step);
    if t.batches[step.b].status.Counted? {
      assert BatchOk(c, s, s.batches[step.b]);
      OwedGrows(c, s.batches, step.b, t.batches[step.b]);
      BumpWeight(s.rows, Joined(c), t.batches[step.b].rows);
    } else {
      OwedSame(c, s.batches, t.batches);
    }
  }

  lemma StatusBatches(c: Config, s: State, step: Step)
    requires Valid(c) && Enabled(c, s, step) && (step.Commit? || step.Fail? || step.Ack?)
    requires WindowInv(c, s) && BatchInv(c, s)
    ensures BatchInv(c, Do(c, s, step)) && Extends(s.batches, Do(c, s, step).batches)
  {
    var t := Do(c, s, step);
    forall i | 0 <= i < |t.batches| ensures BatchOk(c, t, t.batches[i]) {
      assert BatchOk(c, s, s.batches[i]);
    }
  }

  lemma StatusShape(c: Config, s: State, step: Step)
    requires Valid(c) && Enabled(c, s, step) && (step.Commit? || step.Fail? || step.Ack?)
    ensures Do(c, s, step) == s.(batches := Do(c, s, step).batches, rows := Do(c, s, step).rows)
  {
  }

  lemma StatusInv(c: Config, s: State, step: Step)
    requires Valid(c) && Inv(c, s) && Enabled(c, s, step) && (step.Commit? || step.Fail? || step.Ack?)
    ensures Inv(c, Do(c, s, step))
  {
    StatusShape(c, s, step);
    StatusBatches(c, s, step);
    StatusRows(c, s, step);
    WriterStep(c, s, Do(c, s, step));
  }

  lemma ControlInv(c: Config, s: State, step: Step)
    requires Valid(c) && Inv(c, s) && Enabled(c, s, step)
    requires step.Tick? || step.EndWarmup? || step.StoreFrom? || step.StoreTo? || step.EndPush? || step.EndDrain?
    ensures Inv(c, Do(c, s, step))
  {
    var t := Do(c, s, step);
    forall i | 0 <= i < |t.batches| ensures BatchOk(c, t, t.batches[i]) {
      assert BatchOk(c, s, s.batches[i]);
    }
    forall k | k in t.readers ensures ReaderOk(c, t, k, t.readers[k]) {
      assert ReaderOk(c, s, k, s.readers[k]);
    }
    forall p | p in t.counted ensures PairOk(c, t, p) {
      assert PairOk(c, s, p);
    }
  }

  lemma SameBatches(c: Config, s: State, t: State)
    requires BatchInv(c, s)
    requires t.batches == s.batches && t.phase == s.phase && t.clock == s.clock && t.open == s.open
    ensures BatchInv(c, t)
  {
    forall i | 0 <= i < |t.batches| ensures BatchOk(c, t, t.batches[i]) {
      assert BatchOk(c, s, s.batches[i]);
    }
  }

  lemma ReaderMoveInv(c: Config, s: State, step: Step)
    requires Valid(c) && Inv(c, s) && Enabled(c, s, step) && (step.Deliver? || step.LoadFrom? || step.Drop?)
    ensures Inv(c, Do(c, s, step))
  {
    var t := Do(c, s, step);
    SameBatches(c, s, t);
    forall k | k in t.readers ensures ReaderOk(c, t, k, t.readers[k]) {
      if k in s.readers { assert ReaderOk(c, s, k, s.readers[k]); }
      assert step.Deliver? && step.p in s.counted ==> PairOk(c, s, step.p);
    }
    forall p | p in t.counted ensures PairOk(c, t, p) {
      assert PairOk(c, s, p);
    }
  }

  /** A reader that loaded the old `to` finds every stamp past it, and one that
      loaded the old `from` finds no window at all. */
  lemma OnlyTheFinalWindow(c: Config, s: State, k: nat)
    requires Valid(c) && Inv(c, s) && k in s.readers && s.readers[k].Loaded?
    ensures var r := s.readers[k];
            && r.p.b < |s.batches|
            && (InWindow(r.from, s.to, s.batches[r.p.b].stamp) ==> PairOk(c, s, r.p))
  {
    assert ReaderOk(c, s, k, s.readers[k]);
    assert BatchOk(c, s, s.batches[s.readers[k].p.b]);
  }

  lemma TallyInv(c: Config, s: State, step: Step)
    requires Valid(c) && Inv(c, s) && Enabled(c, s, step) && step.LoadToAndTally?
    ensures Inv(c, Do(c, s, step))
  {
    var t, r := Do(c, s, step), s.readers[step.s];
    assert ReaderOk(c, s, step.s, r);
    OnlyTheFinalWindow(c, s, step.s);
    SameBatches(c, s, t);
    forall k | k in t.readers ensures ReaderOk(c, t, k, t.readers[k]) {
      assert ReaderOk(c, s, k, s.readers[k]);
    }
    forall p | p in t.counted ensures PairOk(c, t, p) {
      if p in s.counted { assert PairOk(c, s, p); }
    }
    if t.counted != s.counted {
      SheetGrows(s, step.s, r.p);
    }
  }

  lemma SheetGrows(s: State, k: nat, p: Pair)
    requires SheetInv(s) && p.s == k && p !in s.counted
    ensures SheetInv(s.(counted := s.counted + {p}, sheets := BumpSheet(s.sheets, k)))
  {
    var t := s.(counted := s.counted + {p}, sheets := BumpSheet(s.sheets, k));
    forall j | 0 <= j < SHEETS ensures t.sheets[j] == |SheetPairs(t.counted, j)| {
      var was, now := SheetPairs(s.counted, j), SheetPairs(t.counted, j);
      assert now == if j == k % SHEETS then was + {p} else was;
    }
  }

  lemma MergeInv(c: Config, s: State, step: Step)
    requires Valid(c) && Inv(c, s) && Enabled(c, s, step) && step.MergeSheet?
    ensures Inv(c, Do(c, s, step))
  {
    var t, sheet := Do(c, s, step), SheetPairs(s.counted, s.phase.k);
    assert s.merged !! sheet;
    forall i | 0 <= i < |t.batches| ensures BatchOk(c, t, t.batches[i]) {
      assert BatchOk(c, s, s.batches[i]);
    }
    forall k | k in t.readers ensures ReaderOk(c, t, k, t.readers[k]) {
      assert ReaderOk(c, s, k, s.readers[k]);
    }
    forall p | p in t.counted ensures PairOk(c, t, p) {
      assert PairOk(c, s, p);
    }
  }

  lemma StepInv(c: Config, s: State, step: Step)
    requires Valid(c) && Inv(c, s) && Enabled(c, s, step)
    ensures Inv(c, Do(c, s, step))
  {
    match step
    case Stamp(_) => StampInv(c, s, step);
    case Commit(_) => StatusInv(c, s, step);
    case Ack(_) => StatusInv(c, s, step);
    case Fail(_) => StatusInv(c, s, step);
    case Deliver(_) => ReaderMoveInv(c, s, step);
    case LoadFrom(_) => ReaderMoveInv(c, s, step);
    case Drop(_) => ReaderMoveInv(c, s, step);
    case LoadToAndTally(_) => TallyInv(c, s, step);
    case MergeSheet => MergeInv(c, s, step);
    case _ => ControlInv(c, s, step);
  }

  /** The invariant holds in every reachable state. */
  lemma {:induction false} RunInv(c: Config, steps: seq<Step>)
    requires Valid(c) && Exec(c, steps).Some?
    ensures Inv(c, Exec(c, steps).value)
  {
    if steps == [] {
      InitInv(c);
    } else {
      var n := |steps| - 1;
      RunInv(c, steps[..n]);
      StepInv(c, Exec(c, steps[..n]).value, steps[n]);
    }
  }
}
