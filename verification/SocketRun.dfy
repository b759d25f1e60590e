/** The accounting of one socket run as a step machine: writers stamp and commit
    batches, the control thread opens the window with two separate stores, every
    reader loads the two halves of the window on its own, and the sheets are
    merged one by one while readers may still be reading. */
module SocketRun {
  import opened RoundRobin
  import opened Tally
  import opened Options

  const SHEETS: nat := 64

  /** What the ramp left: which socket ids are up, over how many shards. */
  datatype Config = Config(shards: nat, joined: set<nat>, duration: nat)

  /** The shards written to are the first so many as there are sockets up. */
  function Held(c: Config): nat {
    if |c.joined| > c.shards then c.shards else |c.joined|
  }

  predicate Valid(c: Config) { c.shards > 0 }

  /** Where an insert stands. A failed one may have committed all the same. */
  datatype Status = InFlight(committed: bool) | Counted | Skipped | Failed(committed: bool)

  /** One insert statement: a stamp and a shard for each row. */
  datatype Batch = Batch(rows: seq<nat>, stamp: int, timed: bool, status: Status)

  predicate Committed(b: Batch) {
    match b.status
    case InFlight(y) => y
    case Failed(y) => y
    case _ => true
  }

  /** Row `j` of batch `b`, owed to or read by socket `s`. */
  datatype Pair = Pair(b: nat, j: nat, s: nat)

  /** A reader between two of its steps; a socket with no entry is waiting. */
  datatype Reader = Got(p: Pair) | Loaded(p: Pair, from: int)

  datatype Phase = Warming | Opening | HalfOpen | Timed | Drained | Tallying(k: nat)

  /** `counted` and `merged` only remember which pairs the sheets and the merged
      total have counted; no step is decided by them. */
  datatype State = State(phase: Phase, clock: int, open: int, from: int, to: int,
                         batches: seq<Batch>, rows: seq<nat>,
                         sent: set<Pair>, readers: map<nat, Reader>, dead: set<nat>,
                         sheets: seq<nat>, delivered: nat, counted: set<Pair>, merged: set<Pair>)

  datatype Step =
    | Tick(us: nat)
    | Stamp(shards: seq<nat>)
    | Commit(b: nat)
    | Ack(b: nat)
    | Fail(b: nat)
    | EndWarmup
    | StoreFrom
    | StoreTo
    | EndPush
    | EndDrain
    | Deliver(p: Pair)
    | LoadFrom(s: nat)
    | LoadToAndTally(s: nat)
    | Drop(s: nat)
    | MergeSheet

  function Init(c: Config): State {
    State(Warming, 1, 0, 0, 0, [], seq(c.shards, _ => 0), {}, map[], {}, seq(SHEETS, _ => 0), 0, {}, {})
  }

  predicate Quiescent(bs: seq<Batch>) {
    forall i :: 0 <= i < |bs| ==> !bs[i].status.InFlight?
  }

  /** Socket ids are dealt to shards round robin (`id % Shards`). */
  predicate Wants(c: Config, bs: seq<Batch>, p: Pair)
    requires Valid(c)
  {
    p.b < |bs| && p.j < |bs[p.b].rows| && p.s in c.joined && p.s % c.shards == bs[p.b].rows[p.j]
  }

  predicate Enabled(c: Config, s: State, step: Step)
    requires Valid(c)
  {
    match step
    case Tick(_) => true
    case Stamp(shards) => (s.phase.Warming? || s.phase.Timed?) && forall k :: 0 <= k < |shards| ==> shards[k] < Held(c)
    case Commit(b) => b < |s.batches| && s.batches[b].status in {InFlight(false), Failed(false)}
    case Ack(b) => b < |s.batches| && s.batches[b].status == InFlight(true)
    case Fail(b) => b < |s.batches| && s.batches[b].status.InFlight?
    case EndWarmup => s.phase.Warming? && Quiescent(s.batches)
    case StoreFrom => s.phase.Opening?
    case StoreTo => s.phase.HalfOpen?
    case EndPush => s.phase.Timed? && Quiescent(s.batches)
    case EndDrain => s.phase.Drained?
    case Deliver(p) => Wants(c, s.batches, p) && Committed(s.batches[p.b]) && p !in s.sent && p.s !in s.dead && p.s !in s.readers
    case LoadFrom(k) => k in s.readers && s.readers[k].Got?
    case LoadToAndTally(k) => k in s.readers && s.readers[k].Loaded?
    case Drop(_) => true
    case MergeSheet => s.phase.Tallying? && s.phase.k < SHEETS
  }

  function Bump(rows: seq<nat>, shards: seq<nat>): (r: seq<nat>)
    ensures |r| == |rows|
  {
    if shards == [] then rows
    else
      var r := Bump(rows, shards[..|shards| - 1]);
      var k := shards[|shards| - 1];
      if k < |r| then r[k := r[k] + 1] else r
  }

  /** Socket `s` keeps its count on sheet `s % 64`. */
  function BumpSheet(sheets: seq<nat>, s: nat): seq<nat> {
    if s % SHEETS < |sheets| then sheets[s % SHEETS := sheets[s % SHEETS] + 1] else sheets
  }

  function SheetPairs(ps: set<Pair>, k: nat): set<Pair> {
    set p | p in ps && p.s % SHEETS == k
  }

  function Do(c: Config, s: State, step: Step): State
    requires Valid(c) && Enabled(c, s, step)
  {
    match step
    case Tick(us) => s.(clock := s.clock + us)
    case Stamp(shards) => s.(batches := s.batches + [Batch(shards, s.clock, s.phase.Timed?, InFlight(false))])
    case Commit(b) =>
      var x := s.batches[b];
      s.(batches := s.batches[b := x.(status := if x.status.InFlight? then InFlight(true) else Failed(true))])
    case Ack(b) =>
      // Nothing stores to the window while a writer is pushing, so its two loads are one.
      var x := s.batches[b];
      if InWindow(s.from, s.to, x.stamp) then
        s.(batches := s.batches[b := x.(status := Counted)], rows := Bump(s.rows, x.rows))
      else
        s.(batches := s.batches[b := x.(status := Skipped)])
    case Fail(b) =>
      var x := s.batches[b];
      s.(batches := s.batches[b := x.(status := Failed(x.status.committed))])
    case EndWarmup => s.(phase := Opening, open := s.clock)
    case StoreFrom => s.(phase := HalfOpen, from := s.open)
    case StoreTo => s.(phase := Timed, to := s.open + c.duration)
    case EndPush => s.(phase := Drained)
    case EndDrain => s.(phase := Tallying(0))
    case Deliver(p) => s.(sent := s.sent + {p}, readers := s.readers[p.s := Got(p)])
    case LoadFrom(k) => s.(readers := s.readers[k := Loaded(s.readers[k].p, s.from)])
    case LoadToAndTally(k) =>
      var r := s.readers[k];
      var quiet := s.(readers := s.readers - {k});
      if r.p.b < |s.batches| && InWindow(r.from, s.to, s.batches[r.p.b].stamp) then
        quiet.(counted := s.counted + {r.p}, sheets := BumpSheet(s.sheets, k))
      else quiet
    case Drop(k) => s.(dead := s.dead + {k}, readers := s.readers - {k})
    case MergeSheet =>
      var k := s.phase.k;
      s.(phase := Tallying(k + 1), merged := s.merged + SheetPairs(s.counted, k),
         delivered := s.delivered + (if k < |s.sheets| then s.sheets[k] else 0))
  }

  /** The state a schedule leads to, if every step of it could be taken. */
  function Exec(c: Config, steps: seq<Step>): Option<State>
    requires Valid(c)
  {
    if steps == [] then Some(Init(c)) else
      match Exec(c, steps[..|steps| - 1])
      case None => None
      case Some(s) => if Enabled(c, s, steps[|steps| - 1]) then Some(Do(c, s, steps[|steps| - 1])) else None
  }

  // ----- what is published

  /** The sum over shards of rows times a per-shard weight. */
  function Weighted(rows: seq<nat>, w: seq<nat>): nat
    requires |rows| == |w|
  {
    if rows == [] then 0 else Weighted(rows[..|rows| - 1], w[..|w| - 1]) + rows[|rows| - 1] * w[|w| - 1]
  }

  /** How many sockets the run believes each shard has. */
  function Shares(c: Config): seq<nat>
    requires Valid(c)
  {
    seq(c.shards, k requires 0 <= k < c.shards => Dealt(|c.joined|, c.shards, k))
  }

  function Missing(c: Config, s: State): int
    requires Valid(c) && |s.rows| == c.shards
  {
    Weighted(s.rows, Shares(c)) - s.delivered
  }

  predicate Finished(s: State) { s.phase == Tallying(SHEETS) }

  // ----- the truth it is compared with

  function OnShard(c: Config, k: nat): set<nat>
    requires Valid(c)
  {
    set s | s in c.joined && s % c.shards == k
  }

  function Joined(c: Config): seq<nat>
    requires Valid(c)
  {
    seq(c.shards, k requires 0 <= k < c.shards => |OnShard(c, k)|)
  }

  function RowPairs(c: Config, b: nat, j: nat, shard: nat): set<Pair>
    requires Valid(c)
  {
    set s | s in OnShard(c, shard) :: Pair(b, j, s)
  }

  function BatchPairs(c: Config, b: nat, rows: seq<nat>): set<Pair>
    requires Valid(c)
  {
    if rows == [] then {} else BatchPairs(c, b, rows[..|rows| - 1]) + RowPairs(c, b, |rows| - 1, rows[|rows| - 1])
  }

  /** Every delivery the counted rows owe. */
  function Owed(c: Config, bs: seq<Batch>): set<Pair>
    requires Valid(c)
  {
    if bs == [] then {} else
      Owed(c, bs[..|bs| - 1])
      + (if bs[|bs| - 1].status.Counted? then BatchPairs(c, |bs| - 1, bs[|bs| - 1].rows) else {})
  }

  lemma {:induction false} InBatchPairs(c: Config, b: nat, rows: seq<nat>, p: Pair)
    requires Valid(c)
    ensures p in BatchPairs(c, b, rows) <==>
            p.b == b && p.j < |rows| && p.s in c.joined && p.s % c.shards == rows[p.j]
  {
    if rows != [] { InBatchPairs(c, b, rows[..|rows| - 1], p); }
  }

  lemma {:induction false} InOwed(c: Config, bs: seq<Batch>, p: Pair)
    requires Valid(c)
    ensures p in Owed(c, bs) <==> Wants(c, bs, p) && bs[p.b].status.Counted?
  {
    if bs != [] {
      InOwed(c, bs[..|bs| - 1], p);
      InBatchPairs(c, |bs| - 1, bs[|bs| - 1].rows, p);
    }
  }
}
