/** The mutable half of the tally in sockets/sockets.go: a collector its readers
    record into, and the method that folds collectors into a published result. */
module Collectors {
  import opened Sorting
  import opened Sums
  import opened Tally
  import opened Readings
  import H = Histogram

  class Collector {
    const hist: H.Hist
    var seconds: map<int, Second>
    var shards: map<int, int>
    var stray: int
    /** Every delivery recorded here, in order. */
    ghost var log: seq<Delivery>

    ghost function View(): Sheet
      reads this, hist
    {
      Sheet(hist.View(), seconds, shards, stray)
    }

    ghost predicate Valid()
      reads this, hist
    {
      hist.Valid() && View() == SheetOf(log)
    }

    constructor ()
      ensures Valid() && fresh(hist) && log == []
    {
      hist := new H.Hist();
      seconds, shards, stray, log := map[], map[], 0, [];
    }

    /** The locked part of a socket's read loop. */
    method Record(d: Delivery)
      requires Valid()
      modifies this, hist
      ensures Valid() && log == old(log) + [d]
      ensures View() == Join(old(View()), One(d))
    {
      ghost var was := View();
      hide SheetOf, Join, One, H.Plus, H.Single, H.Of;
      if !InWindow(d.from, d.to, d.stamp) {
        stray := stray + 1;
        JoinStray(was, d);
      } else {
        var us := d.now - d.stamp;
        hist.Add(us);
        Tick(d.shard, SecondOf(d), us as real / 1000.0);
        assert View() == Join(was, One(d)) by { JoinCounted(was, View(), d); }
      }
      assert View() == SheetOf(log + [d]) by { SheetSnoc(log, d); }
      log := log + [d];
    }

    method Tick(shard: int, second: int, ms: real)
      modifies this`shards, this`seconds
      ensures shards == old(shards)[shard := Get(old(shards), shard) + 1]
      ensures seconds == old(seconds)[second := Ticked(At(old(seconds), second), ms)]
    {
      shards := shards[shard := Get(shards, shard) + 1];
      var s := At(seconds, second);
      s := s.(n := s.n + 1, sum := s.sum + ms);
      if ms > s.worst {
        s := s.(worst := ms);
      }
      seconds := seconds[second := s];
    }
  }

  lemma JoinStray(s: Sheet, d: Delivery)
    requires Sound(s) && !InWindow(d.from, d.to, d.stamp)
    ensures Join(s, One(d)) == s.(stray := s.stray + 1)
  {
    JoinBlank(s);
  }

  /** Counting a delivery in, field by field, is joining its sheet. */
  lemma JoinCounted(s: Sheet, r: Sheet, d: Delivery)
    requires Sound(s) && InWindow(d.from, d.to, d.stamp)
    requires r.hist == H.Plus(s.hist, H.Single(H.Max(Late(d), 0))) && r.stray == s.stray
    requires r.shards == s.shards[d.shard := Get(s.shards, d.shard) + 1]
    requires r.seconds == s.seconds[SecondOf(d) := Ticked(At(s.seconds, SecondOf(d)), Ms(d))]
    ensures r == Join(s, One(d))
  {
    TickedJoins(At(s.seconds, SecondOf(d)), Ms(d));
    JoinOneSecond(s.seconds, SecondOf(d), Ticked(QUIET, Ms(d)));
    JoinOneShard(s.shards, d.shard);
  }

  // ----- the fold

  ghost function Logs(cols: seq<Collector>): (r: seq<seq<Delivery>>)
    reads cols
    ensures |r| == |cols| && forall i :: 0 <= i < |r| ==> r[i] == cols[i].log
  {
    seq(|cols|, i requires 0 <= i < |cols| reads cols => cols[i].log)
  }

  method FoldShards(into: map<int, int>, from: map<int, int>) returns (r: map<int, int>)
    ensures r == JoinShards(into, from)
  {
    r := into;
    var todo := from.Keys;
    while todo != {}
      invariant todo <= from.Keys && r.Keys == into.Keys + (from.Keys - todo)
      invariant forall k :: k in r ==> r[k] == Get(into, k) + (if k in todo then 0 else Get(from, k))
    {
      var k := Pick(todo);
      r := r[k := Get(r, k) + from[k]];
      todo := todo - {k};
    }
    forall k ensures Get(r, k) == Get(JoinShards(into, from), k) {
      GetJoin(into, from, k);
    }
    SameGet(r, JoinShards(into, from));
  }

  method FoldSeconds(into: map<int, Second>, from: map<int, Second>) returns (r: map<int, Second>)
    requires Worst0(into) && Worst0(from)
    ensures r == JoinSeconds(into, from)
  {
    r := into;
    var todo := from.Keys;
    while todo != {}
      invariant todo <= from.Keys && r.Keys == into.Keys + (from.Keys - todo)
      invariant forall t :: t in r ==> r[t] == if t in todo then At(into, t) else JoinSecond(At(into, t), At(from, t))
    {
      var t := Pick(todo);
      var s := from[t];
      var x := At(r, t);
      r := r[t := Second(x.n + s.n, x.sum + s.sum, if s.worst > x.worst then s.worst else x.worst)];
      todo := todo - {t};
    }
  }

  predicate Earlier(a: int, b: int) {
    a <= b
  }

  /** The source's own insertion sort over the seconds. */
  method SortTimes(times: array<int>)
    modifies times
    ensures SortedBy(times[..], Earlier) && Permutation(times[..], old(times[..]))
  {
    var i := 1;
    while i < times.Length
      invariant 1 <= i
      invariant forall p, q :: 0 <= p < q < i && q < times.Length ==> times[p] <= times[q]
      invariant multiset(times[..]) == multiset(old(times[..]))
    {
      var j := i;
      while j > 0 && times[j] < times[j - 1]
        invariant 0 <= j <= i
        invariant forall p, q :: 0 <= p < q <= i && q != j ==> times[p] <= times[q]
        invariant multiset(times[..]) == multiset(old(times[..]))
      {
        times[j], times[j - 1] := times[j - 1], times[j];
        j := j - 1;
      }
      i := i + 1;
    }
  }

  method KeysOf(m: map<int, Second>) returns (times: array<int>)
    ensures fresh(times) && Distinct(times[..]) && Elems(times[..]) == m.Keys
  {
    var list := Sums.KeysOf(m);
    times := new int[|list|](i requires 0 <= i < |list| => list[i]);
    assert times[..] == list;
  }

  lemma SortedDistinct(s: seq<int>, t: seq<int>)
    requires SortedBy(s, Earlier) && Permutation(s, t) && Distinct(t)
    ensures Distinct(s)
    ensures Increasing(s)
    ensures Elems(s) == Elems(t)
  {
    StaysDistinct(s, t);
    forall i, j | 0 <= i < j < |s| ensures s[i] < s[j] {
      assert Earlier(s[i], s[j]);
    }
  }

  /** One published second, before rounding. */
  datatype Slot = Slot(t: int, n: int, mean: real, worst: real)

  function SlotOf(t: int, s: Second): Slot {
    Slot(t, s.n, if s.n > 0 then s.sum / s.n as real else s.sum, s.worst)
  }

  /** The timeline lists every second once, in order, counted from the first. */
  ghost predicate IsTimeline(out: seq<Slot>, m: map<int, Second>, keys: seq<int>) {
    && |out| == |keys| && Increasing(keys)
    && Elems(keys) == m.Keys
    && forall i :: 0 <= i < |out| ==> keys[i] in m && out[i] == SlotOf(keys[i] - keys[0], m[keys[i]])
  }

  function NsOf(out: seq<Slot>): seq<int> {
    seq(|out|, i requires 0 <= i < |out| => out[i].n)
  }

  lemma IncreasingIsDistinct(keys: seq<int>)
    requires Increasing(keys)
    ensures Distinct(keys)
  {
    forall i, j | 0 <= i < j < |keys| ensures keys[i] != keys[j] {
      assert keys[i] < keys[j];
    }
  }

  /** What a timeline adds up to is what its seconds held. */
  lemma TimelineTotal(out: seq<Slot>, m: map<int, Second>, keys: seq<int>)
    requires IsTimeline(out, m, keys)
    ensures SeqSum(NsOf(out)) == MapSum(Ns(m))
  {
    IncreasingIsDistinct(keys);
    SumAlong(keys, Ns(m));
    assert Along(keys, Ns(m)) == NsOf(out);
  }

  /** It starts at zero and moves forward. */
  lemma TimelineFromZero(out: seq<Slot>, m: map<int, Second>, keys: seq<int>)
    requires IsTimeline(out, m, keys)
    ensures out != [] ==> out[0].t == 0
    ensures forall i, j :: 0 <= i < j < |out| ==> out[i].t < out[j].t
  {
  }

  method TimelineOf(seconds: map<int, Second>) returns (out: seq<Slot>)
    ensures exists keys :: IsTimeline(out, seconds, keys)
  {
    var times := KeysOf(seconds);
    ghost var unsorted := times[..];
    SortTimes(times);
    ghost var keys := times[..];
    SortedDistinct(keys, unsorted);
    out := [];
    for i := 0 to times.Length
      invariant |out| == i && forall k :: 0 <= k < i ==> out[k] == SlotOf(keys[k], seconds[keys[k]])
    {
      assert keys[i] in Elems(keys);
      out := out + [SlotOf(times[i], seconds[times[i]])];
    }
    out := Rebase(out);
    assert IsTimeline(out, seconds, keys);
  }

  /** Seconds counted from the earliest one. */
  method Rebase(slots: seq<Slot>) returns (out: seq<Slot>)
    ensures |out| == |slots|
    ensures forall k :: 0 <= k < |out| ==> out[k] == slots[k].(t := slots[k].t - slots[0].t)
  {
    out := slots;
    if |out| > 0 {
      var first := out[0].t;
      for i := 0 to |out|
        invariant |out| == |slots|
        invariant forall k :: 0 <= k < i ==> out[k] == slots[k].(t := slots[k].t - first)
        invariant forall k :: i <= k < |out| ==> out[k] == slots[k]
      {
        out := out[i := out[i].(t := out[i].t - first)];
      }
    }
  }

  /** One collector folded into what has been folded so far. */
  method FoldInto(all: H.Hist, seconds: map<int, Second>, shards: map<int, int>, stray: int, c: Collector,
                  ghost log: seq<Delivery>)
    returns (seconds': map<int, Second>, shards': map<int, int>, stray': int)
    requires all.Valid() && c.Valid() && c.hist != all
    requires Sheet(all.View(), seconds, shards, stray) == SheetOf(log)
    modifies all
    ensures all.Valid() && Sheet(all.View(), seconds', shards', stray') == SheetOf(log + c.log)
  {
    hide SheetOf, JoinShards, JoinSeconds, H.Plus, H.Of;
    SheetConcat(log, c.log);
    all.Merge(c.hist);
    stray' := stray + c.stray;
    shards' := FoldShards(shards, c.shards);
    seconds' := FoldSeconds(seconds, c.seconds);
  }

  /** The collectors folded one after another are one sheet fed all they recorded. */
  method FoldSheets(cols: seq<Collector>)
    returns (all: H.Hist, seconds: map<int, Second>, shards: map<int, int>, stray: int)
    requires forall c :: c in cols ==> c.Valid()
    ensures fresh(all) && all.Valid()
    ensures Sheet(all.View(), seconds, shards, stray) == SheetOf(Flatten(Logs(cols)))
  {
    all := new H.Hist();
    seconds, shards, stray := map[], map[], 0;
    ghost var logs := Logs(cols);
    assert Sheet(all.View(), seconds, shards, stray) == SheetOf(Flatten(logs[..0]));
    hide SheetOf, H.Of;
    for i := 0 to |cols|
      invariant fresh(all) && all.Valid()
      invariant forall c :: c in cols ==> c.Valid() && c.hist != all
      invariant Logs(cols) == logs
      invariant Sheet(all.View(), seconds, shards, stray) == SheetOf(Flatten(logs[..i]))
    {
      var c := cols[i];
      assert c in cols && logs[..i + 1][..i] == logs[..i];
      seconds, shards, stray := FoldInto(all, seconds, shards, stray, c, Flatten(logs[..i]));
    }
    assert logs[..|cols|] == logs;
  }

  /** A published second, from the deliveries themselves: how many fell into second `t` of
      the window, what they waited on average and at worst. */
  ghost predicate Shows(slot: Slot, ds: seq<Delivery>, t: int) {
    var mine := Filter(ds, InSecond(t));
    mine != [] && slot.n == |mine| && slot.mean * |mine| as real == TotalMs(mine) && IsWorst(slot.worst, mine)
  }

  /** Every second that saw a delivery, once and in order, counted from the first. */
  ghost predicate ShowsAll(out: seq<Slot>, ds: seq<Delivery>, keys: seq<int>) {
    && |out| == |keys| && Increasing(keys)
    && (forall t :: t in Elems(keys) <==> Filter(ds, InSecond(t)) != [])
    && forall i :: 0 <= i < |out| ==> out[i].t == keys[i] - keys[0] && Shows(out[i], ds, keys[i])
  }

  lemma SlotShows(ds: seq<Delivery>, t: int, base: int)
    requires t in SheetOf(ds).seconds
    ensures Shows(SlotOf(t - base, SheetOf(ds).seconds[t]), ds, t)
  {
    hide SheetOf;
    SecondsHold(ds, t);
    var s, mine := SheetOf(ds).seconds[t], Filter(ds, InSecond(t));
    Mean(s.sum, |mine|);
  }

  lemma Mean(sum: real, n: nat)
    requires n > 0
    ensures sum / n as real * n as real == sum
  {
  }

  /** The timeline of a sheet shows the seconds of its deliveries. */
  lemma TimelineShows(out: seq<Slot>, ds: seq<Delivery>, keys: seq<int>)
    requires IsTimeline(out, SheetOf(ds).seconds, keys)
    ensures ShowsAll(out, ds, keys)
  {
    hide SheetOf, Shows, SlotOf, Filter, InSecond;
    var m := SheetOf(ds).seconds;
    forall t ensures t in Elems(keys) <==> Filter(ds, InSecond(t)) != [] {
      SecondsHold(ds, t);
      assert t in Elems(keys) <==> t in m.Keys;
    }
    forall i | 0 <= i < |out| ensures out[i].t == keys[i] - keys[0] && Shows(out[i], ds, keys[i]) {
      SlotShows(ds, keys[i], keys[0]);
      SlotTime(keys[i] - keys[0], m[keys[i]]);
    }
  }

  lemma SlotTime(t: int, s: Second)
    ensures SlotOf(t, s).t == t
  {
  }

  /** What the four published parts say of the deliveries that were recorded. */
  ghost predicate Published(hist: H.Summary, out: seq<Slot>, shards: map<int, int>, stray: int, ds: seq<Delivery>) {
    && hist == H.Of(Waits(ds))
    && (exists keys :: ShowsAll(out, ds, keys))
    && (forall k :: Get(shards, k) == Count(ds, OnShard(k)))
    && stray == Count(ds, Outside())
  }

  lemma SheetPublishes(out: seq<Slot>, ds: seq<Delivery>, keys: seq<int>)
    requires IsTimeline(out, SheetOf(ds).seconds, keys)
    ensures var one := SheetOf(ds); Published(one.hist, out, one.shards, one.stray, ds)
  {
    HistogramOfWaits(ds);
    TimelineShows(out, ds, keys);
    forall k ensures Get(SheetOf(ds).shards, k) == Count(ds, OnShard(k)) { ShardsCount(ds, k); }
    ShardsCount(ds, 0);
    hide SheetOf, Count, H.Of, Waits, ShowsAll, IsTimeline;
  }

  /** The published totals are the one-sheet totals, and they agree with each
      other: the timeline and the shards both add up to what was delivered. */
  method TallySheets(cols: seq<Collector>) returns (all: H.Hist, out: seq<Slot>, shards: map<int, int>, stray: int)
    requires forall c :: c in cols ==> c.Valid()
    ensures fresh(all) && all.Valid()
    ensures var one := SheetOf(Flatten(Logs(cols)));
            && all.View() == one.hist && shards == one.shards && stray == one.stray
            && exists keys :: IsTimeline(out, one.seconds, keys)
    ensures Published(all.View(), out, shards, stray, Flatten(Logs(cols)))
    ensures SeqSum(NsOf(out)) == MapSum(shards) == all.count
  {
    hide SheetOf, Flatten, H.Of;
    var seconds;
    all, seconds, shards, stray := FoldSheets(cols);
    CountsAgree(Flatten(Logs(cols)));
    out := TimelineOf(seconds);
    ghost var keys :| IsTimeline(out, seconds, keys);
    TimelineTotal(out, seconds, keys);
    hide Published;
    SheetPublishes(out, Flatten(Logs(cols)), keys);
  }
}
