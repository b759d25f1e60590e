/** What a tally sheet says of the deliveries themselves: which wait lands in the histogram,
    which delivery in which second, and what that second's mean and worst are. */
module Readings {
  import opened Sorting
  import opened Sums
  import opened Tally
  import H = Histogram

  predicate Inside(d: Frame) {
    d.from != 0 && d.from <= d.stamp <= d.to
  }

  /** Delivered in second `t` of the window. */
  function InSecond(t: int): Delivery -> bool {
    (d: Delivery) => Inside(d) && t * 1_000_000 <= d.stamp - d.from < (t + 1) * 1_000_000
  }

  function OnShard(k: int): Delivery -> bool {
    (d: Delivery) => Inside(d) && d.shard == k
  }

  function Outside(): Delivery -> bool {
    (d: Delivery) => !Inside(d)
  }

  /** The microseconds a delivery in the window took, none if the clocks say less. */
  function Waits(ds: seq<Delivery>): seq<nat> {
    if ds == [] then []
    else
      var us := ds[0].now - ds[0].stamp;
      (if Inside(ds[0]) then [if us > 0 then us else 0] else []) + Waits(ds[1..])
  }

  /** The same in milliseconds, as a second adds it up. */
  function WaitMs(d: Delivery): real { (d.now - d.stamp) as real / 1000.0 }

  function TotalMs(ds: seq<Delivery>): real {
    if ds == [] then 0.0 else WaitMs(ds[0]) + TotalMs(ds[1..])
  }

  /** The longest wait of some deliveries, or zero if none is above it. */
  ghost predicate IsWorst(worst: real, ds: seq<Delivery>) {
    && worst >= 0.0 && (forall d :: d in ds ==> WaitMs(d) <= worst)
    && (worst == 0.0 || exists d :: d in ds && WaitMs(d) == worst)
  }

  // ----- the histogram

  lemma OneWait(v: nat)
    requires v <= H.MAX_UINT64
    ensures H.Of([v]) == H.Single(v)
  {
    H.OfSnoc([], v);
    assert [] + [v] == [v];
    H.PlusEmpty(H.Single(v));
    H.PlusMonoid(H.Single(v), H.Empty(), H.Empty());
  }

  /** The histogram is that of the waits of the deliveries in the window. */
  lemma {:induction false} HistogramOfWaits(ds: seq<Delivery>)
    ensures SheetOf(ds).hist == H.Of(Waits(ds))
  {
    if ds != [] {
      hide H.Of, H.Plus, H.Single;
      var d, rest := ds[0], Waits(ds[1..]);
      HistogramOfWaits(ds[1..]);
      NoWait(H.Of(rest));
      if Inside(d) {
        var v := H.Max(Late(d), 0);
        assert Waits(ds) == [v] + rest;
        OneWait(v);
        H.OfConcat([v], rest);
      } else {
        assert Waits(ds) == rest;
      }
    }
  }

  lemma NoWait(h: H.Summary)
    requires H.Shaped(h) && h.min <= H.MAX_UINT64
    ensures H.Plus(H.Empty(), h) == h
  {
    H.PlusEmpty(h);
    H.PlusMonoid(h, H.Empty(), h);
  }

  // ----- the seconds

  /** What a sheet's second is of the deliveries that fall into it. */
  ghost predicate Holds(s: Second, mine: seq<Delivery>) {
    s.n == |mine| && s.sum == TotalMs(mine) && IsWorst(s.worst, mine)
  }

  lemma SecondIsItsSpan(d: Delivery, t: int)
    requires Inside(d)
    ensures SecondOf(d) == t <==> InSecond(t)(d)
  {
    var us := d.stamp - d.from;
    assert us / 1_000_000 * 1_000_000 <= us < (us / 1_000_000 + 1) * 1_000_000;
  }

  lemma OneMoreHeld(s: Second, mine: seq<Delivery>, d: Delivery)
    requires Holds(s, mine)
    ensures Holds(JoinSecond(Ticked(QUIET, Ms(d)), s), [d] + mine)
  {
    var more := [d] + mine;
    assert more[1..] == mine && Ms(d) == WaitMs(d);
    assert forall x :: x in more <==> x == d || x in mine;
    assert d in more;
  }

  lemma OneAt(d: Delivery, t: int)
    ensures t in One(d).seconds <==> InSecond(t)(d)
    ensures At(One(d).seconds, t) == if InSecond(t)(d) then Ticked(QUIET, Ms(d)) else QUIET
  {
    if Inside(d) { SecondIsItsSpan(d, t); }
  }

  /** A second is on the sheet exactly when some delivery falls into it, and holds the
      deliveries that do, each once. */
  lemma {:induction false} SecondsHold(ds: seq<Delivery>, t: int)
    ensures var m, mine := SheetOf(ds).seconds, Filter(ds, InSecond(t));
            (t in m <==> mine != []) && Holds(At(m, t), mine)
  {
    if ds == [] {
      NothingHeld();
    } else {
      hide *;
      SecondsHold(ds[1..], t);
      FirstHeld(ds, t);
    }
  }

  lemma NothingHeld()
    ensures Holds(QUIET, [])
  {
  }

  lemma FirstHeld(ds: seq<Delivery>, t: int)
    requires ds != []
    requires var m, mine := SheetOf(ds[1..]).seconds, Filter(ds[1..], InSecond(t));
             (t in m <==> mine != []) && Holds(At(m, t), mine)
    ensures var m, mine := SheetOf(ds).seconds, Filter(ds, InSecond(t));
            (t in m <==> mine != []) && Holds(At(m, t), mine)
  {
    hide Holds, SheetOf, JoinSecond, Ticked, InSecond, One, At;
    SheetHead(ds, t);
    OneAt(ds[0], t);
    var m, mine := SheetOf(ds[1..]).seconds, Filter(ds[1..], InSecond(t));
    if InSecond(t)(ds[0]) {
      OneMoreHeld(At(m, t), mine, ds[0]);
    } else {
      QuietJoins(At(m, t), mine);
      assert [] + mine == mine;
    }
  }

  lemma SheetHead(ds: seq<Delivery>, t: int)
    requires ds != []
    ensures var m, one, rest := SheetOf(ds).seconds, One(ds[0]).seconds, SheetOf(ds[1..]).seconds;
            At(m, t) == JoinSecond(At(one, t), At(rest, t)) && (t in m <==> t in one || t in rest)
  {
    hide One, H.Plus;
    AtJoin(One(ds[0]).seconds, SheetOf(ds[1..]).seconds, t);
  }

  lemma QuietJoins(s: Second, mine: seq<Delivery>)
    requires Holds(s, mine)
    ensures Holds(JoinSecond(QUIET, s), mine) && JoinSecond(QUIET, s) == s
  {
  }

  // ----- the shards and the strays

  lemma {:induction false} ShardsCount(ds: seq<Delivery>, k: int)
    ensures Get(SheetOf(ds).shards, k) == Count(ds, OnShard(k)) && SheetOf(ds).stray == Count(ds, Outside())
  {
    if ds != [] {
      hide H.Plus;
      ShardsCount(ds[1..], k);
      GetJoin(One(ds[0]).shards, SheetOf(ds[1..]).shards, k);
    }
  }
}
