/** The sheets of the socket machine against the collectors: what every reader of a
    schedule records, and that the published total is the count of one histogram of it. */
module SocketReaders {
  import opened Options
  import opened Sorting
  import opened Sums
  import opened Tally
  import opened SocketRun
  import opened SocketInvariants
  import H = Histogram

  /** What the reader of socket `k` hands to its collector as it tallies. */
  function FrameOf(c: Config, s: State, k: nat): Frame
    requires Valid(c) && Enabled(c, s, LoadToAndTally(k))
  {
    var r := s.readers[k];
    Frame(k % c.shards, if r.p.b < |s.batches| then s.batches[r.p.b].stamp else 0, s.clock, r.from, s.to)
  }

  /** The log of every collector after a schedule, and of those merged as they were then. */
  datatype Books = Books(logs: seq<seq<Frame>>, merged: seq<seq<Frame>>)

  function NextBooks(c: Config, s: State, step: Step, b: Books): Books
    requires Valid(c) && Enabled(c, s, step)
  {
    match step
    case LoadToAndTally(k) =>
      if k % SHEETS < |b.logs| then b.(logs := b.logs[k % SHEETS := b.logs[k % SHEETS] + [FrameOf(c, s, k)]]) else b
    case MergeSheet => if s.phase.k < |b.logs| then b.(merged := b.merged + [b.logs[s.phase.k]]) else b
    case _ => b
  }

  function BooksOf(c: Config, steps: seq<Step>): Books
    requires Valid(c) && Exec(c, steps).Some?
  {
    if steps == [] then Books(seq(SHEETS, _ => []), [])
    else
      var init := steps[..|steps| - 1];
      NextBooks(c, Exec(c, init).value, steps[|steps| - 1], BooksOf(c, init))
  }

  predicate Counts(f: Frame) {
    InWindow(f.from, f.to, f.stamp)
  }

  /** No reading of the clock is later than the clock, nor any stamp before the first. */
  ghost predicate Timely(s: State, log: seq<Frame>) {
    forall f :: f in log ==> f.now <= s.clock && f.stamp >= 1
  }

  /** One sheet and its collector's log. */
  ghost predicate InStep(s: State, log: seq<Frame>, sheet: nat) {
    Count(log, Counts) == sheet && Timely(s, log)
  }

  ghost predicate BooksInv(s: State, b: Books) {
    && |b.logs| == |s.sheets| == SHEETS
    && (forall k :: 0 <= k < SHEETS ==> InStep(s, b.logs[k], s.sheets[k]))
    && InStep(s, Flatten(b.merged), s.delivered)
    && |b.merged| == if s.phase.Tallying? then s.phase.k else 0
  }

  lemma CountSnoc(log: seq<Frame>, f: Frame)
    ensures Count(log + [f], Counts) == Count(log, Counts) + (if Counts(f) then 1 else 0)
  {
    CountConcat(log, [f], Counts);
    CountOne(f, Counts);
  }

  /** The frame of a tally is stamped and read in time, and counted where its collector
      counts it. */
  lemma TallyCounts(c: Config, s: State, k: nat)
    requires Valid(c) && Inv(c, s) && Enabled(c, s, LoadToAndTally(k))
    ensures var t, f := Do(c, s, LoadToAndTally(k)), FrameOf(c, s, k);
            && f.now == s.clock && f.stamp >= 1
            && t.sheets == (if Counts(f) then BumpSheet(s.sheets, k) else s.sheets)
            && t.clock == s.clock && t.phase == s.phase && t.delivered == s.delivered
  {
    hide SheetInv, SnapInv, RowInv, PairInv, BumpSheet;
    assert ReaderOk(c, s, k, s.readers[k]);
    assert BatchOk(c, s, s.batches[s.readers[k].p.b]);
  }

  lemma OneMoreFrame(s: State, t: State, log: seq<Frame>, sheet: nat, f: Frame)
    requires InStep(s, log, sheet) && t.clock == s.clock && f.now == s.clock && f.stamp >= 1
    ensures InStep(t, log + [f], if Counts(f) then sheet + 1 else sheet)
  {
    CountSnoc(log, f);
  }

  lemma StaysInStep(s: State, t: State, log: seq<Frame>, sheet: nat)
    requires InStep(s, log, sheet) && t.clock >= s.clock
    ensures InStep(t, log, sheet)
  {
  }

  lemma OneSheetMore(s: State, t: State, b: Books, k: nat, f: Frame)
    requires BooksInv(s, b) && f.now == s.clock && f.stamp >= 1
    requires t.clock == s.clock && t.phase == s.phase && t.delivered == s.delivered
    requires t.sheets == if Counts(f) then BumpSheet(s.sheets, k) else s.sheets
    ensures var i := k % SHEETS; BooksInv(t, b.(logs := b.logs[i := b.logs[i] + [f]]))
  {
    hide Counts, Count, Flatten, InStep;
    var i := k % SHEETS;
    OneMoreFrame(s, t, b.logs[i], s.sheets[i], f);
    StaysInStep(s, t, Flatten(b.merged), s.delivered);
    forall j | 0 <= j < SHEETS && j != i ensures InStep(t, b.logs[j], s.sheets[j]) {
      StaysInStep(s, t, b.logs[j], s.sheets[j]);
    }
  }

  lemma TallyBooks(c: Config, s: State, k: nat, b: Books)
    requires Valid(c) && Inv(c, s) && Enabled(c, s, LoadToAndTally(k)) && BooksInv(s, b)
    ensures BooksInv(Do(c, s, LoadToAndTally(k)), NextBooks(c, s, LoadToAndTally(k), b))
  {
    hide Inv, Do, FrameOf, Counts, BumpSheet, InStep;
    TallyCounts(c, s, k);
    OneSheetMore(s, Do(c, s, LoadToAndTally(k)), b, k, FrameOf(c, s, k));
  }

  lemma MergeBooks(c: Config, s: State, b: Books)
    requires Valid(c) && Enabled(c, s, MergeSheet) && BooksInv(s, b)
    ensures BooksInv(Do(c, s, MergeSheet), NextBooks(c, s, MergeSheet, b))
  {
    var k := s.phase.k;
    var merged := b.merged + [b.logs[k]];
    assert merged[..|merged| - 1] == b.merged;
    CountConcat(Flatten(b.merged), b.logs[k], Counts);
  }

  lemma QuietBooks(c: Config, s: State, step: Step, b: Books)
    requires Valid(c) && Enabled(c, s, step) && BooksInv(s, b) && !step.LoadToAndTally? && !step.MergeSheet?
    ensures BooksInv(Do(c, s, step), b)
  {
    var t := Do(c, s, step);
    assert t.sheets == s.sheets && t.delivered == s.delivered && t.clock >= s.clock;
    assert t.phase.Tallying? ==> (if s.phase.Tallying? then t.phase == s.phase else t.phase.k == 0);
  }

  lemma {:induction false} BooksAgree(c: Config, steps: seq<Step>)
    requires Valid(c) && Exec(c, steps).Some?
    ensures BooksInv(Exec(c, steps).value, BooksOf(c, steps))
  {
    if steps == [] {
      assert Flatten<Frame>([]) == [];
    } else {
      var init, step := steps[..|steps| - 1], steps[|steps| - 1];
      var s := Exec(c, init).value;
      RunInv(c, init);
      BooksAgree(c, init);
      hide BooksInv, Inv, Do, NextBooks, Enabled;
      StepBooks(c, s, step, BooksOf(c, init));
    }
  }

  lemma StepBooks(c: Config, s: State, step: Step, b: Books)
    requires Valid(c) && Inv(c, s) && Enabled(c, s, step) && BooksInv(s, b)
    ensures BooksInv(Do(c, s, step), NextBooks(c, s, step, b))
  {
    hide BooksInv, Inv, Do;
    match step
    case LoadToAndTally(k) => TallyBooks(c, s, k, b);
    case MergeSheet => MergeBooks(c, s, b);
    case _ => QuietBooks(c, s, step, b);
  }

  lemma {:induction false} SheetCounts(ds: seq<Delivery>)
    ensures SheetOf(ds).hist.count == Count<Frame>(ds, Counts)
  {
    if ds != [] {
      SheetCounts(ds[1..]);
      JoinedCount(ds[0], SheetOf(ds[1..]));
    }
  }

  lemma JoinedCount(d: Delivery, s: Sheet)
    requires Sound(s)
    ensures Join(One(d), s).hist.count == (if Counts(d) then 1 else 0) + s.hist.count
  {
  }

  /** Late by no more than 64 bits of microseconds can say. */
  ghost predicate Deliveries(log: seq<Frame>) {
    forall f :: f in log ==> Late(f) <= H.MAX_UINT64
  }

  lemma TimelyFit(s: State, log: seq<Frame>)
    requires Timely(s, log) && s.clock <= H.MAX_UINT64
    ensures Deliveries(log)
  {
  }

  /** At every moment of every run, the total merged so far is the count of the histogram
      one collector would keep if it were fed all that the merged ones had recorded. */
  lemma DeliveredIsOneSheet(c: Config, steps: seq<Step>)
    requires Valid(c) && Exec(c, steps).Some? && Exec(c, steps).value.clock <= H.MAX_UINT64
    ensures var s, all := Exec(c, steps).value, Flatten(BooksOf(c, steps).merged);
            && Deliveries(all)
            && s.delivered == SheetOf(all).hist.count
            && (Finished(s) ==> |BooksOf(c, steps).merged| == SHEETS)
  {
    var s, b := Exec(c, steps).value, BooksOf(c, steps);
    var all := Flatten(b.merged);
    BooksAgree(c, steps);
    hide SheetOf, Exec, BooksOf, Flatten, Count;
    TimelyFit(s, all);
    SheetCounts(all);
  }
}
