/** fleet/idle.go: what a node and one attached project cost while nothing is
    asked of them, read off samples of cumulative counters. */
module IdleRates {
  import opened Sorting

  datatype Sample = Sample(elapsed: real, attached: nat, puts: int, gets: int, lists: int, deletes: int) {
    /** The counter of one kind of op. */
    function Read(k: Kind): int {
      match k
      case Puts => puts
      case Gets => gets
      case Lists => lists
      case Deletes => deletes
    }
  }

  datatype Ops = Ops(puts: real, gets: real, lists: real, deletes: real) {
    function Scale(f: real): Ops { Ops(puts * f, gets * f, lists * f, deletes * f) }

    function Add(b: Ops): Ops { Ops(puts + b.puts, gets + b.gets, lists + b.lists, deletes + b.deletes) }

    function Of(k: Kind): real {
      match k
      case Puts => puts
      case Gets => gets
      case Lists => lists
      case Deletes => deletes
    }
  }

  datatype Kind = Puts | Gets | Lists | Deletes

  const ZERO: Ops := Ops(0.0, 0.0, 0.0, 0.0)

  datatype Idle = Idle(dormantSeconds: real, attachedSeconds: real, projectSeconds: real,
                       dormantOps: Ops, attachedOps: Ops,
                       dormantPerHour: Ops, attachedPerProjectHour: Ops,
                       drainSeconds: real, sawDormant: bool, samples: nat)

  predicate ByElapsed(a: Sample, b: Sample) {
    a.elapsed <= b.elapsed
  }

  function Grown(prev: Sample, cur: Sample): Ops {
    Ops((cur.puts - prev.puts) as real, (cur.gets - prev.gets) as real,
        (cur.lists - prev.lists) as real, (cur.deletes - prev.deletes) as real)
  }

  /** A counter that went backwards: the node restarted. */
  predicate Shrank(o: Ops) {
    o.puts < 0.0 || o.gets < 0.0 || o.lists < 0.0 || o.deletes < 0.0
  }

  /** What an interval counts as. */
  datatype Pile = Nothing | Restarted | Drained | Dormant | Attached

  function PileOf(prev: Sample, cur: Sample, last: real, drain: real): Pile {
    if cur.elapsed - prev.elapsed <= 0.0 then Nothing
    else if Shrank(Grown(prev, cur)) then Restarted
    else if prev.attached > 0 then Attached
    else if last >= 0.0 && prev.elapsed < last + drain then Drained
    else Dormant
  }

  /** When the node last held something, -1 when it never did. */
  function LastAttached(s: seq<Sample>): real {
    if s == [] then -1.0
    else if s[|s| - 1].attached > 0 then s[|s| - 1].elapsed else LastAttached(s[..|s| - 1])
  }

  // ----- the piles of a sorted list of samples

  datatype Piles = Piles(dormantSeconds: real, attachedSeconds: real, projectSeconds: real,
                         dormantOps: Ops, attachedOps: Ops)

  const NO_PILES: Piles := Piles(0.0, 0.0, 0.0, ZERO, ZERO)

  /** The project seconds of an interval. */
  function Held(prev: Sample, cur: Sample): real {
    (cur.elapsed - prev.elapsed) * prev.attached as real
  }

  /** One interval put on its pile. */
  function Put(x: Piles, prev: Sample, cur: Sample, last: real, drain: real): Piles {
    var secs := cur.elapsed - prev.elapsed;
    match PileOf(prev, cur, last, drain)
    case Dormant => x.(dormantSeconds := x.dormantSeconds + secs, dormantOps := x.dormantOps.Add(Grown(prev, cur)))
    case Attached =>
      x.(attachedSeconds := x.attachedSeconds + secs,
         projectSeconds := x.projectSeconds + Held(prev, cur),
         attachedOps := x.attachedOps.Add(Grown(prev, cur)))
    case _ => x
  }

  function Piled(s: seq<Sample>, last: real, drain: real): Piles {
    if |s| < 2 then NO_PILES
    else Put(Piled(s[..|s| - 1], last, drain), s[|s| - 2], s[|s| - 1], last, drain)
  }

  /** The seconds of intervals counted in neither window. */
  function Dropped(s: seq<Sample>, last: real, drain: real): real {
    if |s| < 2 then 0.0
    else
      var pile := PileOf(s[|s| - 2], s[|s| - 1], last, drain);
      Dropped(s[..|s| - 1], last, drain)
      + (if pile == Restarted || pile == Drained then s[|s| - 1].elapsed - s[|s| - 2].elapsed else 0.0)
  }

  function Max0(v: real): real { if v < 0.0 then 0.0 else v }

  function Net(o: Ops, own: Ops): Ops {
    Ops(Max0(o.puts - own.puts), Max0(o.gets - own.gets), Max0(o.lists - own.lists), Max0(o.deletes - own.deletes))
  }

  function PerHour(ops: real, seconds: real): real {
    if seconds > 0.0 then ops * (3600.0 / seconds) else 0.0
  }

  function HourRate(o: Ops, seconds: real): Ops {
    if seconds > 0.0 then o.Scale(3600.0 / seconds) else ZERO
  }

  /** The published rates, from the piles. */
  function Rated(x: Piles, drain: real, n: nat): Idle {
    var dormant := HourRate(x.dormantOps, x.dormantSeconds);
    Idle(x.dormantSeconds, x.attachedSeconds, x.projectSeconds, x.dormantOps, x.attachedOps, dormant,
         HourRate(Net(x.attachedOps, dormant.Scale(x.attachedSeconds / 3600.0)), x.projectSeconds),
         drain, x.dormantSeconds > 0.0, n)
  }

  function PilesOf(o: Idle): Piles {
    Piles(o.dormantSeconds, o.attachedSeconds, o.projectSeconds, o.dormantOps, o.attachedOps)
  }

  predicate Unrated(o: Idle, drain: real, n: nat) {
    o.drainSeconds == drain && o.samples == n && !o.sawDormant && o.dormantPerHour == o.attachedPerProjectHour == ZERO
  }

  /** The samples taken at one time, in the order they stand. */
  function TakenAt(s: seq<Sample>, t: real): seq<Sample> {
    Filter(s, At(t))
  }

  function At(t: real): Sample -> bool {
    (x: Sample) => x.elapsed == t
  }

  /** sort.SliceStable: ordered by time, and samples of one time as they stood. */
  method SortByElapsed(samples: array<Sample>)
    modifies samples
    ensures samples[..] == Sort(old(samples[..]), ByElapsed)
    ensures SortedBy(samples[..], ByElapsed) && Permutation(samples[..], old(samples[..]))
    ensures forall t :: TakenAt(samples[..], t) == TakenAt(old(samples[..]), t)
  {
    ghost var was := samples[..];
    forall t ensures TakenAt(Sort(was, ByElapsed), t) == TakenAt(was, t) {
      SortIsStable(was, ByElapsed, At(t));
    }
    var sorted := Sort(samples[..], ByElapsed);
    SortSorts(samples[..], ByElapsed);
    forall i | 0 <= i < samples.Length {
      samples[i] := sorted[i];
    }
    assert samples[..] == sorted;
  }

  method Rates(samples: array<Sample>, drain: real) returns (out: Idle)
    modifies samples
    ensures SortedBy(samples[..], ByElapsed) && Permutation(samples[..], old(samples[..]))
    ensures forall t :: TakenAt(samples[..], t) == TakenAt(old(samples[..]), t)
    ensures var s := samples[..]; out == Rated(Piled(s, LastAttached(s), drain), drain, |s|)
    ensures out.samples == samples.Length && out.drainSeconds == drain && (out.sawDormant <==> out.dormantSeconds > 0.0)
  {
    out := Idle(0.0, 0.0, 0.0, ZERO, ZERO, ZERO, ZERO, drain, false, samples.Length);
    if samples.Length < 2 {
      return;
    }
    hide Filter, Piled, LastAttached;
    SortByElapsed(samples);
    var last := LastSeen(samples);
    out := Classify(samples, out, last, drain);
    out := Publish(out, drain);
  }

  /** Every interval between neighbours put on its pile. */
  method Classify(samples: array<Sample>, o: Idle, last: real, drain: real) returns (out: Idle)
    requires samples.Length >= 2 && Unrated(o, drain, samples.Length) && PilesOf(o) == NO_PILES
    ensures Unrated(out, drain, samples.Length) && PilesOf(out) == Piled(samples[..], last, drain)
  {
    hide Put, Unrated;
    out := o;
    for i := 1 to samples.Length
      invariant Unrated(out, drain, samples.Length)
      invariant PilesOf(out) == Piled(samples[..i], last, drain)
    {
      assert samples[..i + 1][..i] == samples[..i];
      out := Interval(out, samples[i - 1], samples[i], last, drain);
    }
    assert samples[..samples.Length] == samples[..];
  }

  method Publish(o: Idle, drain: real) returns (out: Idle)
    requires Unrated(o, drain, o.samples)
    ensures out == Rated(PilesOf(o), drain, o.samples)
  {
    out := o;
    if out.dormantSeconds > 0.0 {
      out := out.(sawDormant := true, dormantPerHour := out.dormantOps.Scale(3600.0 / out.dormantSeconds));
    }
    assert out.dormantPerHour == HourRate(o.dormantOps, o.dormantSeconds);
    if out.projectSeconds > 0.0 {
      var own := out.dormantPerHour.Scale(out.attachedSeconds / 3600.0);
      var net := Net(out.attachedOps, own);
      out := out.(attachedPerProjectHour := net.Scale(3600.0 / out.projectSeconds));
    }
  }

  method LastSeen(samples: array<Sample>) returns (last: real)
    ensures last == LastAttached(samples[..])
  {
    last := -1.0;
    for i := 0 to samples.Length
      invariant last == LastAttached(samples[..i])
    {
      assert samples[..i + 1][..i] == samples[..i];
      if samples[i].attached > 0 {
        last := samples[i].elapsed;
      }
    }
    assert samples[..samples.Length] == samples[..];
  }

  method Interval(o: Idle, prev: Sample, cur: Sample, last: real, drain: real) returns (out: Idle)
    ensures forall n: nat :: Unrated(o, drain, n) ==> Unrated(out, drain, n)
    ensures PilesOf(out) == Put(PilesOf(o), prev, cur, last, drain)
  {
    out := o;
    var seconds := cur.elapsed - prev.elapsed;
    if seconds <= 0.0 {
      return;
    }
    var ops := Grown(prev, cur);
    if ops.puts < 0.0 || ops.gets < 0.0 || ops.lists < 0.0 || ops.deletes < 0.0 {
      return;
    }
    if prev.attached == 0 {
      if last >= 0.0 && prev.elapsed < last + drain {
        return;
      }
      assert PileOf(prev, cur, last, drain) == Dormant;
      out := out.(dormantSeconds := out.dormantSeconds + seconds, dormantOps := out.dormantOps.Add(ops));
      return;
    }
    assert PileOf(prev, cur, last, drain) == Attached;
    out := out.(attachedSeconds := out.attachedSeconds + seconds,
                projectSeconds := out.projectSeconds + Held(prev, cur),
                attachedOps := out.attachedOps.Add(ops));
  }

  function NotBefore(seconds: real): Sample -> bool {
    (x: Sample) => x.elapsed >= seconds
  }

  /** `out` is what is kept of the first `i` samples. */
  ghost predicate IsAfter(samples: seq<Sample>, seconds: real, i: nat, out: seq<Sample>) {
    && i <= |samples|
    && (forall x :: x in out <==> x in samples[..i] && x.elapsed >= seconds)
    && multiset(out) <= multiset(samples[..i])
    && |out| == Count(samples[..i], NotBefore(seconds))
    && (SortedBy(samples, ByElapsed) ==> SortedBy(out, ByElapsed))
  }

  lemma KeptSoFar(samples: seq<Sample>, seconds: real, i: nat, out: seq<Sample>)
    requires i < |samples| && IsAfter(samples, seconds, i, out)
    ensures IsAfter(samples, seconds, i + 1, if samples[i].elapsed >= seconds then out + [samples[i]] else out)
  {
    hide Count;
    var x, init := samples[i], samples[..i];
    assert samples[..i + 1] == init + [x];
    CountConcat(init, [x], NotBefore(seconds));
    CountOne(x, NotBefore(seconds));
    forall j | 0 <= j < |out| ensures SortedBy(samples, ByElapsed) ==> ByElapsed(out[j], x) {
      assert out[j] in init;
    }
  }

  /** After: the settle is left out, and the order kept. */
  method After(samples: seq<Sample>, seconds: real) returns (out: seq<Sample>)
    ensures forall x :: x in out <==> x in samples && x.elapsed >= seconds
    ensures multiset(out) <= multiset(samples)
    ensures |out| == Count(samples, NotBefore(seconds))
    ensures SortedBy(samples, ByElapsed) ==> SortedBy(out, ByElapsed)
  {
    out := [];
    for i := 0 to |samples|
      invariant IsAfter(samples, seconds, i, out)
    {
      KeptSoFar(samples, seconds, i, out);
      if samples[i].elapsed >= seconds {
        out := out + [samples[i]];
      }
    }
    assert samples[..|samples|] == samples;
  }

  // ----- what the piles hold

  /** How far one counter moved over an interval, how long the interval was, and how
      many project seconds that is. */
  function Growth(k: Kind): (Sample, Sample) -> real {
    (prev: Sample, cur: Sample) => (cur.Read(k) - prev.Read(k)) as real
  }

  function Span(): (Sample, Sample) -> real {
    (prev: Sample, cur: Sample) => cur.elapsed - prev.elapsed
  }

  function ProjectSpan(): (Sample, Sample) -> real {
    (prev: Sample, cur: Sample) => (cur.elapsed - prev.elapsed) * prev.attached as real
  }

  /** A measure of intervals, added up over those on one pile. */
  function Over(s: seq<Sample>, pile: Pile, last: real, drain: real, measure: (Sample, Sample) -> real): real {
    if |s| < 2 then 0.0
    else
      var prev, cur := s[|s| - 2], s[|s| - 1];
      Over(s[..|s| - 1], pile, last, drain, measure)
      + (if PileOf(prev, cur, last, drain) == pile then measure(prev, cur) else 0.0)
  }

  lemma GrownOf(prev: Sample, cur: Sample, k: Kind)
    ensures Grown(prev, cur).Of(k) == Growth(k)(prev, cur) == (cur.Read(k) - prev.Read(k)) as real
  {
  }

  /** Each pile holds, kind by kind, what the counters moved over its intervals, and
      their seconds; the attached one their project seconds besides. */
  lemma {:induction false} PilesAreSums(s: seq<Sample>, last: real, drain: real, k: Kind)
    ensures var x := Piled(s, last, drain);
            && x.dormantOps.Of(k) == Over(s, Dormant, last, drain, Growth(k))
            && x.attachedOps.Of(k) == Over(s, Attached, last, drain, Growth(k))
            && x.dormantSeconds == Over(s, Dormant, last, drain, Span())
            && x.attachedSeconds == Over(s, Attached, last, drain, Span())
            && x.projectSeconds == Over(s, Attached, last, drain, ProjectSpan())
  {
    if |s| >= 2 {
      hide PileOf, Put, Growth, Span, ProjectSpan;
      var n := |s| - 1;
      PilesAreSums(s[..n], last, drain, k);
      PutAdds(Piled(s[..n], last, drain), s[n - 1], s[n], last, drain, k);
    }
  }

  lemma PutAdds(x: Piles, prev: Sample, cur: Sample, last: real, drain: real, k: Kind)
    ensures var y, pile := Put(x, prev, cur, last, drain), PileOf(prev, cur, last, drain);
            && y.dormantOps.Of(k) == x.dormantOps.Of(k) + (if pile == Dormant then Growth(k)(prev, cur) else 0.0)
            && y.attachedOps.Of(k) == x.attachedOps.Of(k) + (if pile == Attached then Growth(k)(prev, cur) else 0.0)
            && y.dormantSeconds == x.dormantSeconds + (if pile == Dormant then Span()(prev, cur) else 0.0)
            && y.attachedSeconds == x.attachedSeconds + (if pile == Attached then Span()(prev, cur) else 0.0)
            && y.projectSeconds == x.projectSeconds + (if pile == Attached then ProjectSpan()(prev, cur) else 0.0)
  {
    GrownOf(prev, cur, k);
    hide PileOf, Grown, Growth;
    AddOf(x.dormantOps, Grown(prev, cur), k);
    AddOf(x.attachedOps, Grown(prev, cur), k);
  }

  /** An interval is on the restart pile exactly when some counter fell over it, and on
      the attached one exactly when none did and something was held as it began. */
  lemma PileMeans(prev: Sample, cur: Sample, last: real, drain: real)
    ensures var pile := PileOf(prev, cur, last, drain);
            && (pile == Nothing <==> cur.elapsed <= prev.elapsed)
            && (pile == Restarted <==> cur.elapsed > prev.elapsed && exists k: Kind :: cur.Read(k) < prev.Read(k))
            && (pile == Attached <==>
                  cur.elapsed > prev.elapsed && prev.attached > 0 && forall k: Kind :: cur.Read(k) >= prev.Read(k))
  {
    ShrankIff(prev, cur);
    hide Shrank;
  }

  lemma ShrankIff(prev: Sample, cur: Sample)
    ensures Shrank(Grown(prev, cur)) <==> exists k: Kind :: cur.Read(k) < prev.Read(k)
  {
    assert cur.Read(Puts) < prev.Read(Puts) <==> Grown(prev, cur).puts < 0.0;
    assert cur.Read(Gets) < prev.Read(Gets) <==> Grown(prev, cur).gets < 0.0;
    assert cur.Read(Lists) < prev.Read(Lists) <==> Grown(prev, cur).lists < 0.0;
    assert cur.Read(Deletes) < prev.Read(Deletes) <==> Grown(prev, cur).deletes < 0.0;
  }

  /** A node nobody is attached to, sampled twice an hour apart: what its four counters
      moved is what it is said to do in an hour. */
  lemma OneQuietHour(a: Sample, puts: nat, gets: nat, lists: nat, deletes: nat, drain: real)
    requires a.attached == 0
    ensures var b := Sample(a.elapsed + 3600.0, 0, a.puts + puts, a.gets + gets, a.lists + lists, a.deletes + deletes);
            Rated(Piled([a, b], LastAttached([a, b]), drain), drain, 2).dormantPerHour
            == Ops(puts as real, gets as real, lists as real, deletes as real)
  {
    var b := Sample(a.elapsed + 3600.0, 0, a.puts + puts, a.gets + gets, a.lists + lists, a.deletes + deletes);
    var s := [a, b];
    assert s[..|s| - 1] == [a];
    assert LastAttached([a]) == -1.0;
    assert PileOf(a, b, -1.0, drain) == Dormant;
    assert Piled([a], -1.0, drain) == NO_PILES;
    assert Piled(s, -1.0, drain) == Put(NO_PILES, a, b, -1.0, drain);
  }

  // ----- what the rates mean

  /** No second is lost or counted twice: every interval is dormant, attached or
      dropped. */
  lemma {:induction false} SecondsConserved(s: seq<Sample>, last: real, drain: real)
    requires SortedBy(s, ByElapsed) && s != []
    ensures var x := Piled(s, last, drain);
            Dropped(s, last, drain) + x.dormantSeconds + x.attachedSeconds == s[|s| - 1].elapsed - s[0].elapsed
  {
    if |s| >= 2 {
      assert ByElapsed(s[|s| - 2], s[|s| - 1]);
      SecondsConserved(s[..|s| - 1], last, drain);
    }
  }

  /** In sorted samples a dormant interval starts no earlier than the drain after
      the last moment anything was attached; a quiet stretch between two attached
      ones is drained away, not just the one after the last detach. */
  lemma DormantComesLast(s: seq<Sample>, i: nat, j: nat, drain: real)
    requires SortedBy(s, ByElapsed) && i + 1 < |s| && j < |s| && s[j].attached > 0 && s[j].elapsed >= 0.0
    requires drain >= 0.0 && PileOf(s[i], s[i + 1], LastAttached(s), drain) == Dormant
    ensures s[i].elapsed >= s[j].elapsed + drain && i > j
  {
    assert i < j ==> ByElapsed(s[i], s[j]);
    LastAttachedIsLast(s, j);
  }

  lemma {:induction false} LastAttachedIsOne(s: seq<Sample>) returns (j: nat)
    requires LastAttached(s) >= 0.0
    ensures j < |s| && s[j].attached > 0 && s[j].elapsed == LastAttached(s)
  {
    j := |s| - 1;
    if s[j].attached == 0 { j := LastAttachedIsOne(s[..j]); }
  }

  /** Some sample saw something attached and the node is still draining after it at `t`;
      samples before it count as well as samples after it. */
  ghost predicate StillDraining(s: seq<Sample>, t: real, drain: real) {
    exists j :: 0 <= j < |s| && s[j].attached > 0 && s[j].elapsed >= 0.0 && t < s[j].elapsed + drain
  }

  /** Exactly which quiet intervals are left out: those that begin before the drain of
      any attached sample is over, be it an earlier or a later one. */
  lemma QuietIsDrainedIff(s: seq<Sample>, i: nat, drain: real)
    requires SortedBy(s, ByElapsed) && i + 1 < |s|
    requires s[i].attached == 0 && s[i].elapsed < s[i + 1].elapsed
    requires forall k: Kind :: s[i].Read(k) <= s[i + 1].Read(k)
    ensures PileOf(s[i], s[i + 1], LastAttached(s), drain) == Drained <==> StillDraining(s, s[i].elapsed, drain)
    ensures PileOf(s[i], s[i + 1], LastAttached(s), drain) == Dormant <==> !StillDraining(s, s[i].elapsed, drain)
  {
    ShrankIff(s[i], s[i + 1]);
    if LastAttached(s) >= 0.0 {
      var j := LastAttachedIsOne(s);
    }
    forall j | 0 <= j < |s| && s[j].attached > 0 ensures s[j].elapsed <= LastAttached(s) {
      LastAttachedIsLast(s, j);
    }
  }

  /** Half an hour of quiet between two attached samples. */
  function QuietHold(): seq<Sample> {
    [Sample(0.0, 1, 0, 0, 0, 0), Sample(120.0, 0, 5, 0, 0, 0), Sample(1920.0, 0, 36, 0, 0, 0), Sample(1980.0, 1, 37, 0, 0, 0)]
  }

  lemma QuietHoldIsSorted()
    ensures SortedBy(QuietHold(), ByElapsed) && LastAttached(QuietHold()) == 1980.0
  {
  }

  /** It begins a minute after the minute of drain that follows the first is over, and
      counts as drained all the same: the hold has no dormant window. */
  lemma QuietBetweenIsLeftOut()
    ensures var s := QuietHold();
            && s[0].attached > 0 && s[0].elapsed + 60.0 < s[1].elapsed && s[1].attached == 0
            && PileOf(s[1], s[2], LastAttached(s), 60.0) == Drained
            && Dropped(s, LastAttached(s), 60.0) == 1860.0 && Piled(s, LastAttached(s), 60.0).dormantSeconds == 0.0
  {
    var s := QuietHold();
    QuietHoldIsSorted();
    QuietHoldPiles();
    PilesUpTo(s, 1);
    PilesUpTo(s, 2);
    PilesUpTo(s, 3);
    assert s[..4] == s;
    hide LastAttached, PileOf;
  }

  lemma QuietHoldPiles()
    ensures var s := QuietHold();
            && PileOf(s[0], s[1], 1980.0, 60.0) == Attached && PileOf(s[1], s[2], 1980.0, 60.0) == Drained
            && PileOf(s[2], s[3], 1980.0, 60.0) == Drained
  {
  }

  /** One more interval of a list. */
  lemma PilesUpTo(s: seq<Sample>, n: nat)
    requires 1 <= n < |s|
    ensures var last, pile := LastAttached(s), PileOf(s[n - 1], s[n], LastAttached(s), 60.0);
            var lost := if pile == Restarted || pile == Drained then s[n].elapsed - s[n - 1].elapsed else 0.0;
            && Piled(s[..n + 1], last, 60.0) == Put(Piled(s[..n], last, 60.0), s[n - 1], s[n], last, 60.0)
            && Dropped(s[..n + 1], last, 60.0) == Dropped(s[..n], last, 60.0) + lost
  {
    assert s[..n + 1][..n] == s[..n];
  }

  lemma {:induction false} LastAttachedIsLast(s: seq<Sample>, j: nat)
    requires SortedBy(s, ByElapsed) && j < |s| && s[j].attached > 0
    ensures LastAttached(s) >= s[j].elapsed
  {
    var n := |s| - 1;
    if j < n {
      assert ByElapsed(s[j], s[n]);
      LastAttachedIsLast(s[..n], j);
    }
  }

  lemma ScaleOf(o: Ops, f: real, k: Kind)
    ensures o.Scale(f).Of(k) == o.Of(k) * f
  {
  }

  lemma HourRateOf(o: Ops, seconds: real, k: Kind)
    ensures HourRate(o, seconds).Of(k) == PerHour(o.Of(k), seconds)
  {
  }

  lemma NetOf(o: Ops, own: Ops, k: Kind)
    ensures Net(o, own).Of(k) == Max0(o.Of(k) - own.Of(k))
  {
  }

  /** The published rates, one kind of op at a time. */
  lemma RatedOf(x: Piles, drain: real, n: nat, k: Kind)
    ensures var r := Rated(x, drain, n);
            var d := PerHour(x.dormantOps.Of(k), x.dormantSeconds);
            && r.dormantPerHour.Of(k) == d
            && r.attachedPerProjectHour.Of(k)
               == PerHour(Max0(x.attachedOps.Of(k) - d * (x.attachedSeconds / 3600.0)), x.projectSeconds)
  {
    hide HourRate, PerHour, Net;
    var r := Rated(x, drain, n);
    var dormant := HourRate(x.dormantOps, x.dormantSeconds);
    var own := dormant.Scale(x.attachedSeconds / 3600.0);
    HourRateOf(x.dormantOps, x.dormantSeconds, k);
    ScaleOf(dormant, x.attachedSeconds / 3600.0, k);
    NetOf(x.attachedOps, own, k);
    HourRateOf(Net(x.attachedOps, own), x.projectSeconds, k);
    assert r.dormantPerHour == dormant;
    assert r.attachedPerProjectHour == HourRate(Net(x.attachedOps, own), x.projectSeconds);
    assert own.Of(k) == PerHour(x.dormantOps.Of(k), x.dormantSeconds) * (x.attachedSeconds / 3600.0);
  }

  /** A rate an hour, charged for the seconds it was read over. */
  lemma RateTimesHours(ops: real, seconds: real)
    requires seconds > 0.0
    ensures ops * (3600.0 / seconds) * (seconds / 3600.0) == ops
  {
    var a, b := 3600.0 / seconds, seconds / 3600.0;
    assert a * seconds == 3600.0;
    assert b * 3600.0 == seconds;
    assert a * b == 1.0 by { assert a * b * 3600.0 == a * (b * 3600.0); }
    assert ops * a * b == ops * (a * b);
  }

  /** Charging the attached window at the published rates gives back the ops it
      saw, or the node's own share where that was more. */
  lemma RatesAccountForTheOps(x: Piles, drain: real, n: nat, k: Kind)
    requires x.projectSeconds > 0.0
    ensures var r := Rated(x, drain, n);
            var own := r.dormantPerHour.Of(k) * (x.attachedSeconds / 3600.0);
            r.attachedPerProjectHour.Of(k) * (x.projectSeconds / 3600.0) + own
            == (if x.attachedOps.Of(k) > own then x.attachedOps.Of(k) else own)
  {
    hide Rated;
    RatedOf(x, drain, n, k);
    var own := PerHour(x.dormantOps.Of(k), x.dormantSeconds) * (x.attachedSeconds / 3600.0);
    RateTimesHours(Max0(x.attachedOps.Of(k) - own), x.projectSeconds);
  }

  /** Over a counted interval the counter of kind `k` grows at `d` an hour for the
      node and `p` an hour for each project attached at its start. */
  ghost predicate GrowsOn(prev: Sample, cur: Sample, last: real, drain: real, k: Kind, d: real, p: real) {
    var pile, secs := PileOf(prev, cur, last, drain), cur.elapsed - prev.elapsed;
    var grown := (cur.Read(k) - prev.Read(k)) as real;
    && (pile == Dormant ==> grown * 3600.0 == d * secs)
    && (pile == Attached ==> grown * 3600.0 == d * secs + p * (secs * prev.attached as real))
  }

  ghost predicate GrowsAt(s: seq<Sample>, last: real, drain: real, k: Kind, d: real, p: real) {
    forall i :: 1 <= i < |s| ==> GrowsOn(s[i - 1], s[i], last, drain, k, d, p)
  }

  lemma Distribute(d: real, x: real, y: real)
    ensures d * (x + y) == d * x + d * y
  {
  }

  /** The ops of each pile, at those rates over its seconds. */
  ghost predicate InStep(x: Piles, k: Kind, d: real, p: real) {
    && x.dormantOps.Of(k) * 3600.0 == d * x.dormantSeconds
    && x.attachedOps.Of(k) * 3600.0 == d * x.attachedSeconds + p * x.projectSeconds
  }

  lemma {:induction false} PilesGrowAt(s: seq<Sample>, last: real, drain: real, k: Kind, d: real, p: real)
    requires GrowsAt(s, last, drain, k, d, p)
    ensures InStep(Piled(s, last, drain), k, d, p)
  {
    if |s| >= 2 {
      hide Put, InStep;
      var n := |s| - 1;
      PilesGrowAt(s[..n], last, drain, k, d, p);
      PutGrowsAt(Piled(s[..n], last, drain), s[n - 1], s[n], last, drain, k, d, p);
    }
  }

  lemma PutGrowsAt(x: Piles, prev: Sample, cur: Sample, last: real, drain: real, k: Kind, d: real, p: real)
    requires GrowsOn(prev, cur, last, drain, k, d, p) && InStep(x, k, d, p)
    ensures InStep(Put(x, prev, cur, last, drain), k, d, p)
  {
    var secs := cur.elapsed - prev.elapsed;
    var held := secs * prev.attached as real;
    PutAdds(x, prev, cur, last, drain, k);
    assert Span()(prev, cur) == secs && ProjectSpan()(prev, cur) == held;
    assert Growth(k)(prev, cur) == (cur.Read(k) - prev.Read(k)) as real;
    hide PileOf, Put, Growth, Span, ProjectSpan;
    Distribute(d, x.dormantSeconds, secs);
    Distribute(d, x.attachedSeconds, secs);
    Distribute(p, x.projectSeconds, held);
  }

  lemma AddOf(a: Ops, b: Ops, k: Kind)
    ensures a.Add(b).Of(k) == a.Of(k) + b.Of(k)
  {
  }

  lemma RateRecovered(ops: real, rate: real, seconds: real)
    requires ops * 3600.0 == rate * seconds && seconds > 0.0
    ensures ops * (3600.0 / seconds) == rate
  {
    var a := 3600.0 / seconds;
    assert a * seconds == 3600.0;
    assert ops * a * seconds == ops * (a * seconds);
    assert ops * a < rate ==> ops * a * seconds < rate * seconds;
    assert ops * a > rate ==> ops * a * seconds > rate * seconds;
  }

  lemma OwnShare(d: real, seconds: real)
    ensures d * (seconds / 3600.0) * 3600.0 == d * seconds
  {
    var h := seconds / 3600.0;
    assert h * 3600.0 == seconds;
    assert d * h * 3600.0 == d * (h * 3600.0);
  }

  /** However and whenever a truly linear node is sampled, the two rates come out
      exactly, once there is a dormant and an attached stretch to read them from. */
  lemma RatesAreExact(s: seq<Sample>, drain: real, k: Kind, d: real, p: real)
    requires GrowsAt(s, LastAttached(s), drain, k, d, p) && d >= 0.0 && p >= 0.0
    requires Piled(s, LastAttached(s), drain).dormantSeconds > 0.0 && Piled(s, LastAttached(s), drain).projectSeconds > 0.0
    ensures var r := Rated(Piled(s, LastAttached(s), drain), drain, |s|);
            r.dormantPerHour.Of(k) == d && r.attachedPerProjectHour.Of(k) == p
  {
    hide Rated, Piled;
    var x := Piled(s, LastAttached(s), drain);
    PilesGrowAt(s, LastAttached(s), drain, k, d, p);
    RatedOf(x, drain, |s|, k);
    RateRecovered(x.dormantOps.Of(k), d, x.dormantSeconds);
    OwnShare(d, x.attachedSeconds);
    var net := x.attachedOps.Of(k) - d * (x.attachedSeconds / 3600.0);
    assert net * 3600.0 == p * x.projectSeconds;
    Product(p, x.projectSeconds);
    RateRecovered(net, p, x.projectSeconds);
  }

  lemma Product(p: real, x: real)
    requires p >= 0.0 && x >= 0.0
    ensures p * x >= 0.0
  {
  }
}
