/** sockets/hist.go: a fixed histogram of microsecond durations, nine decades of
    nine hundred buckets, whose quantiles are ceilings within one percent. */
module Histogram {
  import opened Sorting
  import opened Options

  newtype uint64 = x: int | 0 <= x < 0x1_0000_0000_0000_0000

  const MAX_UINT64: int := 0xFFFF_FFFF_FFFF_FFFF
  const DECADES: nat := 9
  const PER_DECADE: nat := 900
  const BUCKETS: nat := 8100
  /** The first duration no bucket holds: a thousand seconds. */
  const LIMIT: nat := 1_000_000_000

  // ----- which bucket a duration falls in

  function Pow10(d: nat): (p: nat)
    ensures p >= 1
  {
    if d == 0 then 1 else 10 * Pow10(d - 1)
  }

  lemma Pow10Monotone(d: nat, e: nat)
    requires d <= e
    ensures Pow10(d) <= Pow10(e)
  {
    if d < e { Pow10Monotone(d, e - 1); }
  }

  /** The number of decimal digits of `v`, less one. */
  function Decade(v: nat): nat {
    if v < 10 then 0 else 1 + Decade(v / 10)
  }

  lemma DecadeBounds(v: nat)
    requires v >= 1
    ensures Pow10(Decade(v)) <= v < Pow10(Decade(v) + 1)
  {
    if v >= 10 { DecadeBounds(v / 10); }
  }

  lemma DecadeUnique(v: nat, d: nat)
    requires Pow10(d) <= v < Pow10(d + 1)
    ensures Decade(v) == d
  {
    DecadeBounds(v);
    if d < Decade(v) { Pow10Monotone(d + 1, Decade(v)); }
    if d > Decade(v) { Pow10Monotone(Decade(v) + 1, d); }
  }

  lemma DecadeMonotone(v: nat, w: nat)
    requires v <= w
    ensures Decade(v) <= Decade(w)
  {
  }

  lemma LimitIsNineDecades(v: nat)
    ensures Decade(v) < DECADES <==> v < LIMIT
  {
    assert Pow10(9) == LIMIT by {
      assert Pow10(3) == 1000;
      assert Pow10(6) == 1_000_000;
    }
    if v >= 1 {
      DecadeBounds(v);
      if Decade(v) < 9 { Pow10Monotone(Decade(v) + 1, 9); } else { Pow10Monotone(9, Decade(v)); }
    }
  }

  /** Where a duration lands; -1 is past the last decade. The hundredths of the
      decade need no clamp, see WithinFits. */
  function BucketOf(v: nat): int {
    if v < 1 then 0
    else if Decade(v) >= DECADES then -1
    else PER_DECADE * Decade(v) + (v - Pow10(Decade(v))) * 100 / Pow10(Decade(v))
  }

  /** The longest duration that bucket `i` holds, in whole microseconds. */
  function UpperOf(i: nat): nat {
    (Pow10(i / PER_DECADE) * 100 + (i % PER_DECADE + 1) * Pow10(i / PER_DECADE)) / 100
  }

  lemma DivBounds(a: nat, b: nat)
    requires b > 0
    ensures a / b * b <= a < (a / b + 1) * b
  {
  }

  lemma DivMonotone(a: nat, c: nat, b: nat)
    requires b > 0 && a <= c
    ensures a / b <= c / b
  {
    DivBounds(a, b);
    DivBounds(c, b);
    if a / b > c / b {
      assert a / b >= c / b + 1;
      MulMonotone(c / b + 1, a / b, b);
    }
  }

  lemma MulMonotone(x: int, y: int, b: nat)
    requires x <= y
    ensures x * b <= y * b
  {
  }

  /** Between one and ten times the scale there are at most 900 hundredths. */
  lemma WithinFits(v: nat, scale: nat)
    requires 1 <= scale <= v < 10 * scale
    ensures 0 <= (v - scale) * 100 / scale < PER_DECADE
  {
    var q := (v - scale) * 100 / scale;
    DivBounds((v - scale) * 100, scale);
    if q >= 900 { MulMonotone(900, q, scale); }
  }

  lemma BucketRange(v: nat)
    ensures BucketOf(v) == -1 <==> v >= LIMIT
    ensures v < LIMIT ==> 0 <= BucketOf(v) < BUCKETS
    ensures 1 <= v < LIMIT ==> BucketOf(v) / PER_DECADE == Decade(v)
  {
    LimitIsNineDecades(v);
    if 1 <= v < LIMIT {
      DecadeBounds(v);
      WithinFits(v, Pow10(Decade(v)));
    }
  }

  /** Longer durations never land in an earlier bucket. */
  lemma BucketMonotone(v: nat, w: nat)
    requires v <= w < LIMIT
    ensures BucketOf(v) <= BucketOf(w)
  {
    BucketRange(v);
    BucketRange(w);
    if v >= 1 {
      DecadeMonotone(v, w);
      if Decade(v) == Decade(w) {
        DecadeBounds(v);
        DivMonotone((v - Pow10(Decade(v))) * 100, (w - Pow10(Decade(v))) * 100, Pow10(Decade(v)));
      }
    }
  }

  /** The bound of the hundredth that `v` falls in, whatever the scale. */
  lemma HundredthBound(v: nat, scale: nat, within: nat)
    requires 1 <= scale <= v && within == (v - scale) * 100 / scale
    ensures v <= (scale * 100 + (within + 1) * scale) / 100
    ensures 100 * ((scale * 100 + (within + 1) * scale) / 100 - v) <= v
  {
    DivBounds((v - scale) * 100, scale);
    assert (within + 1) * scale == within * scale + scale;
  }

  /** A bucket's bound is never under what is in it, and never more than one
      percent over it. */
  lemma BoundIsACeiling(v: nat)
    requires v < LIMIT
    ensures BucketOf(v) >= 0 && UpperOf(BucketOf(v)) >= v
    ensures v >= 1 ==> 100 * (UpperOf(BucketOf(v)) - v) <= v
  {
    BucketRange(v);
    if v >= 1 {
      DecadeBounds(v);
      var scale := Pow10(Decade(v));
      WithinFits(v, scale);
      HundredthBound(v, scale, (v - scale) * 100 / scale);
    }
  }

  /** The buckets spelled out: bucket `i` of decade `d` holds the durations from
      (100 + i) to (101 + i) hundredths of ten to the `d`, and none below one microsecond
      but in the first. */
  lemma BucketIsASpan(v: nat, d: nat, i: nat)
    requires 1 <= v < LIMIT && d < DECADES && i < PER_DECADE
    ensures BucketOf(v) == PER_DECADE * d + i <==> Pow10(d) * (100 + i) <= 100 * v < Pow10(d) * (101 + i)
    ensures BucketOf(0) == 0
  {
    BucketRange(v);
    DecadeBounds(v);
    WithinFits(v, Pow10(Decade(v)));
    if BucketOf(v) == PER_DECADE * d + i {
      assert Decade(v) == d;
      SpanOfHundredth(v, Pow10(d), i);
    }
    if Pow10(d) * (100 + i) <= 100 * v < Pow10(d) * (101 + i) {
      SpanInDecade(v, Pow10(d), i);
      DecadeUnique(v, d);
      SpanOfHundredth(v, Pow10(d), i);
    }
  }

  lemma SpanOfHundredth(v: nat, scale: nat, i: nat)
    requires 1 <= scale <= v
    ensures (v - scale) * 100 / scale == i <==> scale * (100 + i) <= 100 * v < scale * (101 + i)
  {
    var a := (v - scale) * 100;
    DivBounds(a, scale);
    assert scale * (100 + i) == scale * 100 + i * scale && scale * (101 + i) == scale * 100 + (i + 1) * scale;
    if a / scale < i { MulMonotone(a / scale + 1, i, scale); }
    if a / scale > i { MulMonotone(i + 1, a / scale, scale); }
  }

  lemma SpanInDecade(v: nat, scale: nat, i: nat)
    requires scale >= 1 && i < PER_DECADE && scale * (100 + i) <= 100 * v < scale * (101 + i)
    ensures scale <= v < 10 * scale
  {
    MulMonotone(100, 100 + i, scale);
    MulMonotone(101 + i, 1000, scale);
  }

  /** The bound of that bucket is the end of its span, in whole microseconds. */
  lemma UpperEndsTheSpan(d: nat, i: nat)
    requires i < PER_DECADE
    ensures var bound := UpperOf(PER_DECADE * d + i); 100 * bound <= Pow10(d) * (101 + i) < 100 * (bound + 1)
  {
    var scale := Pow10(d);
    assert (PER_DECADE * d + i) / PER_DECADE == d && (PER_DECADE * d + i) % PER_DECADE == i;
    hide Pow10;
    assert UpperOf(PER_DECADE * d + i) == (scale * 100 + (i + 1) * scale) / 100;
    hide UpperOf;
    assert scale * 100 + (i + 1) * scale == scale * (101 + i);
    DivBounds(scale * (101 + i), 100);
  }

  lemma BucketIn(v: nat, d: nat)
    requires d < DECADES && Pow10(d) <= v < Pow10(d + 1)
    ensures BucketOf(v) == PER_DECADE * d + (v - Pow10(d)) * 100 / Pow10(d)
  {
    DecadeUnique(v, d);
  }

  lemma OutsideDecades(v: nat)
    ensures v < 1 ==> BucketOf(v) == 0
    ensures v >= LIMIT ==> BucketOf(v) == -1
  {
    LimitIsNineDecades(v);
  }

  /** index, in the width the source computes in: that every intermediate value
      fits 64 bits is part of what is checked. */
  method Index(v: uint64) returns (i: int)
    ensures i == BucketOf(v as int)
  {
    hide BucketOf, Decade;
    OutsideDecades(v as int);
    if v < 1 {
      return 0;
    }
    var decade, scale: uint64 := 0, 1;
    while scale * 10 <= v
      invariant 0 <= decade < DECADES
      invariant scale as int == Pow10(decade) <= 100_000_000
      invariant scale <= v
      decreases v - scale
    {
      scale := scale * 10;
      decade := decade + 1;
      if decade >= DECADES {
        Pow10Of9();
        return -1;
      }
      Pow10Monotone(decade, 8);
      Pow10Of9();
    }
    BucketIn(v as int, decade);
    WithinFits(v as int, scale as int);
    var within := ((v - scale) * 100 / scale) as int;
    if within >= PER_DECADE {
      within := PER_DECADE - 1;
    }
    i := decade * PER_DECADE + within;
  }

  lemma Pow10Of9()
    ensures Pow10(8) == 100_000_000 && Pow10(9) == LIMIT
  {
    assert Pow10(3) == 1000;
    assert Pow10(6) == 1_000_000;
  }

  method Upper(i: nat) returns (bound: uint64)
    requires i < BUCKETS
    ensures bound as int == UpperOf(i)
  {
    var decade, within := i / PER_DECADE, i % PER_DECADE;
    var scale: uint64 := 1;
    Pow10Of9();
    for k := 0 to decade
      invariant scale as int == Pow10(k) <= 100_000_000
    {
      Pow10Monotone(k + 1, 8);
      scale := scale * 10;
    }
    assert (within as uint64 + 1) * scale <= 900 * 100_000_000 by {
      MulMonotone(within + 1, 900, scale as int);
    }
    bound := (scale * 100 + (within as uint64 + 1) * scale) / 100;
  }

  // ----- what a histogram holds

  /** The histogram's fields as one value. Sums are whole microseconds. */
  datatype Summary = Summary(buckets: seq<nat>, count: nat, sum: nat, max: nat, min: int, over: nat)

  function Max(a: int, b: int): int { if a > b then a else b }

  function Min(a: int, b: int): int { if a < b then a else b }

  function Empty(): Summary { Summary(seq(BUCKETS, _ => 0), 0, 0, 0, MAX_UINT64, 0) }

  function Single(v: nat): Summary {
    Summary(seq(BUCKETS, i => if i == BucketOf(v) then 1 else 0), 1, v, v, v, if BucketOf(v) < 0 then 1 else 0)
  }

  predicate Shaped(a: Summary) {
    |a.buckets| == BUCKETS
  }

  function PlusBuckets(a: seq<nat>, b: seq<nat>): (r: seq<nat>)
    requires |a| == |b|
    ensures |r| == |a|
  {
    seq(|a|, i requires 0 <= i < |a| => a[i] + b[i])
  }

  function Plus(a: Summary, b: Summary): Summary
    requires Shaped(a) && Shaped(b)
  {
    Summary(PlusBuckets(a.buckets, b.buckets),
            a.count + b.count, a.sum + b.sum, Max(a.max, b.max), Min(a.min, b.min), a.over + b.over)
  }

  /** The histogram of a whole history of durations. */
  function Of(log: seq<nat>): (s: Summary)
    ensures Shaped(s) && s.min <= MAX_UINT64
  {
    if log == [] then Empty() else Plus(Of(log[..|log| - 1]), Single(log[|log| - 1]))
  }

  /** Plus makes summaries a commutative monoid, with Empty as its unit. */
  lemma PlusMonoid(a: Summary, b: Summary, c: Summary)
    requires Shaped(a) && Shaped(b) && Shaped(c)
    ensures Plus(a, b) == Plus(b, a)
    ensures Shaped(Plus(a, b)) && Shaped(Plus(b, c)) && Plus(Plus(a, b), c) == Plus(a, Plus(b, c))
  {
    assert Plus(a, b).buckets == Plus(b, a).buckets;
    assert Plus(Plus(a, b), c).buckets == Plus(a, Plus(b, c)).buckets;
  }

  lemma PlusEmpty(a: Summary)
    requires Shaped(a) && a.min <= MAX_UINT64
    ensures Plus(a, Empty()) == a
  {
    assert Plus(a, Empty()).buckets == a.buckets;
  }

  lemma OfSnoc(log: seq<nat>, v: nat)
    ensures Of(log + [v]) == Plus(Of(log), Single(v))
  {
    assert (log + [v])[..|log|] == log;
  }

  /** Counting `v` in, field by field, is the history with `v` at its end. */
  lemma CountedIn(h: Summary, g: Summary, log: seq<nat>, v: nat)
    requires h == Of(log) && BucketOf(v) < BUCKETS
    requires g.count == h.count + 1 && g.sum == h.sum + v && g.max == Max(h.max, v) && g.min == Min(h.min, v)
    requires BucketOf(v) < 0 ==> g.buckets == h.buckets && g.over == h.over + 1
    requires BucketOf(v) >= 0 ==> g.over == h.over && g.buckets == h.buckets[BucketOf(v) := h.buckets[BucketOf(v)] + 1]
    ensures g == Of(log + [v]) == Plus(h, Single(v))
  {
    OfSnoc(log, v);
    assert g.buckets == PlusBuckets(h.buckets, Single(v).buckets);
  }

  lemma MergedIn(a: Summary, b: Summary, g: Summary, la: seq<nat>, lb: seq<nat>)
    requires a == Of(la) && b == Of(lb)
    requires g.buckets == PlusBuckets(a.buckets, b.buckets)
    requires g.count == a.count + b.count && g.sum == a.sum + b.sum && g.over == a.over + b.over
    requires g.max == Max(a.max, b.max) && g.min == Min(a.min, b.min)
    ensures g == Of(la + lb) == Plus(a, b)
  {
    OfConcat(la, lb);
  }

  lemma {:induction false} OfConcat(l: seq<nat>, m: seq<nat>)
    ensures Of(l + m) == Plus(Of(l), Of(m))
    decreases |m|
  {
    if m == [] {
      assert l + m == l;
      PlusEmpty(Of(l));
    } else {
      var m', x := m[..|m| - 1], m[|m| - 1];
      assert (l + m)[..|l + m| - 1] == l + m';
      OfConcat(l, m');
      PlusMonoid(Of(l), Of(m'), Single(x));
    }
  }

  ghost function InBucket(i: int): nat -> bool { (v: nat) => BucketOf(v) == i }

  ghost function BelowBucket(i: int): nat -> bool { (v: nat) => 0 <= BucketOf(v) < i }

  /** Every field says what it is named for. */
  lemma {:induction false} OfCounts(log: seq<nat>, i: int)
    requires -1 <= i < BUCKETS
    ensures Of(log).count == |log|
    ensures (if i < 0 then Of(log).over else Of(log).buckets[i]) == Count(log, InBucket(i))
  {
    if log != [] {
      var l, x := log[..|log| - 1], log[|log| - 1];
      OfCounts(l, i);
      assert log == l + [x];
      BucketRange(x);
      OneMore(l, x, i);
    }
  }

  function Total(log: seq<nat>): nat {
    if log == [] then 0 else log[0] + Total(log[1..])
  }

  lemma {:induction false} TotalSnoc(log: seq<nat>, v: nat)
    ensures Total(log + [v]) == Total(log) + v
  {
    if log == [] {
      assert [v][1..] == [];
    } else {
      TotalSnoc(log[1..], v);
      assert (log + [v])[1..] == log[1..] + [v];
    }
  }

  /** The sum is that of every duration recorded. */
  lemma {:induction false} OfSum(log: seq<nat>)
    ensures Of(log).sum == Total(log)
  {
    if log != [] {
      var l, x := log[..|log| - 1], log[|log| - 1];
      OfSum(l);
      TotalSnoc(l, x);
      assert log == l + [x];
    }
  }

  lemma {:induction false} OfBounds(log: seq<nat>, x: nat)
    requires x in log
    ensures Of(log).min <= x <= Of(log).max && Of(log).max in log
    ensures Of(log).min in log || Of(log).min == MAX_UINT64
  {
    hide Of;
    var l, y := log[..|log| - 1], log[|log| - 1];
    assert log == l + [y];
    OfExtremes(l, y);
    if l != [] { OfBounds(l, if x in l then x else l[0]); }
  }

  lemma OfExtremes(l: seq<nat>, y: nat)
    ensures Of(l + [y]).min == Min(Of(l).min, y) && Of(l + [y]).max == Max(Of(l).max, y)
    ensures l == [] ==> Of(l).min == MAX_UINT64 && Of(l).max == 0
  {
    OfSnoc(l, y);
  }

  lemma OneMore(l: seq<nat>, x: nat, i: int)
    ensures Count(l + [x], InBucket(i)) == Count(l, InBucket(i)) + (if BucketOf(x) == i then 1 else 0)
  {
    CountConcat(l, [x], InBucket(i));
  }

  lemma NothingRecorded(log: seq<nat>)
    requires Of(log).count == 0
    ensures log == []
  {
    OfCounts(log, 0);
  }

  lemma {:induction false} BelowStep(log: seq<nat>, i: nat)
    ensures Count(log, BelowBucket(i + 1)) == Count(log, BelowBucket(i)) + Count(log, InBucket(i))
  {
    if log != [] { BelowStep(log[1..], i); }
  }

  // ----- the rank a quantile asks for

  function Ceil(x: real): int { -((-x).Floor) }

  /** The rank the quantile wants, from 1. */
  function Rank(count: nat, q: real): nat
    requires q >= 0.0
  {
    Max(1, Ceil(count as real * q))
  }

  lemma RankInRange(count: nat, q: real)
    requires 0.0 <= q <= 1.0 && count > 0
    ensures 1 <= Rank(count, q) <= count
    ensures q > 0.0 ==> (Rank(count, q) - 1) as real < count as real * q <= Rank(count, q) as real
  {
    var x := count as real * q;
    assert 0.0 <= x <= count as real;
    if q > 0.0 { assert x > 0.0; }
  }

  method Wanted(count: nat, q: real) returns (want: nat)
    requires count > 0 && q >= 0.0
    ensures want == Rank(count, q)
  {
    assert count as real * q >= 0.0;
    want := Ceil(count as real * q);
    if want == 0 {
      want := 1;
    }
  }

  predicate AtMost(a: nat, b: nat) {
    a <= b
  }

  /** `bound` may be published for the true value `t`: never under it, and within
      one percent wherever the buckets measure anything. */
  ghost predicate Ceiling(bound: nat, t: nat) {
    bound >= t && (1 <= t < LIMIT ==> 100 * (bound - t) <= t)
  }

  /** `bound` may be published for the value at rank `r` of the sorted history. */
  ghost predicate Covers(bound: nat, log: seq<nat>, r: int) {
    forall s :: SortedBy(s, AtMost) && Permutation(s, log) ==> 1 <= r <= |s| && Ceiling(bound, s[r - 1])
  }

  /** Every history has such an order, in which none is longer than the next. */
  lemma HistorySorts(log: seq<nat>) returns (s: seq<nat>)
    ensures SortedBy(s, AtMost) && Permutation(s, log) && |s| == |log|
    ensures forall i, j :: 0 <= i < j < |s| ==> s[i] <= s[j]
  {
    s := Sort(log, AtMost);
    SortSorts(log, AtMost);
    forall i, j | 0 <= i < j < |s| ensures s[i] <= s[j] {
      assert AtMost(s[i], s[j]);
    }
  }

  /** A duration no longer than one before bucket `i` is before it too. */
  lemma BelowIsDownward(v: nat, w: nat, i: nat)
    requires v <= w && BelowBucket(i)(w) && i <= BUCKETS
    ensures BelowBucket(i)(v)
  {
    BucketRange(v);
    BucketRange(w);
    BucketMonotone(v, w);
  }

  /** In sorted order, the durations before bucket `i` come first. */
  lemma SortedBelow(s: seq<nat>, i: nat, r: nat)
    requires SortedBy(s, AtMost) && i <= BUCKETS && 1 <= r <= |s|
    ensures Count(s, BelowBucket(i)) >= r <==> BelowBucket(i)(s[r - 1])
  {
    var p := BelowBucket(i);
    if p(s[r - 1]) {
      assert s == s[..r] + s[r..];
      CountConcat(s[..r], s[r..], p);
      var front := s[..r];
      forall k | 0 <= k < r ensures p(front[k]) {
        assert k < r - 1 ==> AtMost(s[k], s[r - 1]);
        BelowIsDownward(s[k], s[r - 1], i);
      }
      CountAll(front, p);
    } else {
      assert s == s[..r - 1] + s[r - 1..];
      CountConcat(s[..r - 1], s[r - 1..], p);
      var tail := s[r - 1..];
      forall k | 0 <= k < |tail| ensures !p(tail[k]) {
        assert k > 0 ==> AtMost(s[r - 1], tail[k]);
        if p(tail[k]) { BelowIsDownward(s[r - 1], tail[k], i); }
      }
      CountNone(tail, p);
      CountBound(s[..r - 1], p);
    }
  }

  // ----- the histogram itself

  method AddBuckets(mine: seq<nat>, theirs: seq<nat>) returns (r: seq<nat>)
    requires |mine| == |theirs|
    ensures r == PlusBuckets(mine, theirs)
  {
    r := mine;
    for i := 0 to |theirs|
      invariant |r| == |mine|
      invariant forall k :: 0 <= k < i ==> r[k] == mine[k] + theirs[k]
      invariant forall k :: i <= k < |mine| ==> r[k] == mine[k]
    {
      r := r[i := r[i] + theirs[i]];
    }
  }

  class Hist {
    var buckets: seq<nat>
    var count: nat
    var sum: nat
    var max: nat
    var min: int
    var over: nat
    /** Every duration recorded here, directly or through a merge. */
    ghost var log: seq<nat>

    ghost function View(): Summary
      reads this
    {
      Summary(buckets, count, sum, max, min, over)
    }

    ghost predicate Valid()
      reads this
    {
      View() == Of(log)
    }

    constructor ()
      ensures Valid() && log == []
    {
      buckets := seq(BUCKETS, _ => 0);
      count, sum, max, min, over := 0, 0, 0, MAX_UINT64, 0;
      log := [];
    }

    method Add(us: int)
      requires Valid() && us <= MAX_UINT64
      modifies this
      ensures Valid()
      ensures log == old(log) + [Max(us, 0)]
      ensures View() == Plus(old(View()), Single(Max(us, 0)))
    {
      var v: nat := Max(us, 0);
      ghost var h := View();
      BucketRange(v);
      Note(v);
      var i := Index(v as uint64);
      Place(i);
      CountedIn(h, View(), log, v);
      log := log + [v];
    }

    method Note(v: nat)
      modifies this`count, this`sum, this`max, this`min
      ensures count == old(count) + 1 && sum == old(sum) + v
      ensures max == Max(old(max), v) && min == Min(old(min), v)
    {
      count := count + 1;
      sum := sum + v;
      if v > max { max := v; }
      if v < min { min := v; }
    }

    method Place(i: int)
      requires i < |buckets|
      modifies this`buckets, this`over
      ensures i < 0 ==> buckets == old(buckets) && over == old(over) + 1
      ensures i >= 0 ==> over == old(over) && buckets == old(buckets)[i := old(buckets[i]) + 1]
    {
      if i < 0 {
        over := over + 1;
        return;
      }
      buckets := buckets[i := buckets[i] + 1];
    }

    method Merge(other: Hist?)
      requires Valid() && (other != null ==> other.Valid())
      modifies this
      ensures Valid()
      ensures log == old(log) + (if other == null then [] else old(other.log))
      ensures other != null ==> View() == Plus(old(View()), old(other.View()))
    {
      if other == null {
        return;
      }
      ghost var mine, theirs := View(), other.View();
      ghost var joined := log + other.log;
      if other.count == 0 {
        NothingRecorded(other.log);
        OfConcat(log, other.log);
        assert joined == log;
        return;
      }
      buckets := AddBuckets(buckets, other.buckets);
      count := count + other.count;
      sum := sum + other.sum;
      over := over + other.over;
      if other.max > max { max := other.max; }
      if other.min < min { min := other.min; }
      MergedIn(mine, theirs, View(), log, other.log);
      log := joined;
    }

    /** The microsecond bound a quantile publishes: a ceiling of the value at
        the wanted rank of the sorted history. */
    method Quantile(q: real) returns (bound: Option<nat>)
      requires Valid() && q >= 0.0
      ensures bound.None? <==> log == []
      ensures bound.Some? && q <= 1.0 ==> Covers(bound.value, log, Rank(|log|, q))
    {
      OfCounts(log, 0);
      if count == 0 {
        return None;
      }
      var want := Wanted(count, q);
      assert q <= 1.0 ==> want <= |log| by { if q <= 1.0 { RankInRange(|log|, q); } }
      var seen := 0;
      CountNone(log, BelowBucket(0));
      for i := 0 to BUCKETS
        invariant seen == Count(log, BelowBucket(i)) < want
      {
        seen := seen + buckets[i];
        OfCounts(log, i);
        BelowStep(log, i);
        if seen >= want {
          var b := Upper(i);
          if q <= 1.0 { CoveredByBucket(log, want, i); }
          return Some(b as int);
        }
      }
      if q <= 1.0 { CoveredByMax(log, want); }
      return Some(max);
    }
  }

  lemma CoveredByBucket(log: seq<nat>, r: nat, i: nat)
    requires 1 <= r <= |log| && i < BUCKETS
    requires Count(log, BelowBucket(i)) < r <= Count(log, BelowBucket(i + 1))
    ensures Covers(UpperOf(i), log, r)
  {
    forall s | SortedBy(s, AtMost) && Permutation(s, log)
      ensures 1 <= r <= |s| && Ceiling(UpperOf(i), s[r - 1])
    {
      RankFallsIn(s, log, r, i);
      BoundIsACeiling(s[r - 1]);
    }
  }

  lemma CoveredByMax(log: seq<nat>, r: nat)
    requires 1 <= r <= |log|
    requires Count(log, BelowBucket(BUCKETS)) < r
    ensures Covers(Of(log).max, log, r)
  {
    forall s | SortedBy(s, AtMost) && Permutation(s, log)
      ensures 1 <= r <= |s| && Ceiling(Of(log).max, s[r - 1])
    {
      RankFallsPast(s, log, r);
    }
  }

  lemma RankFallsIn(s: seq<nat>, log: seq<nat>, r: nat, i: nat)
    requires SortedBy(s, AtMost) && Permutation(s, log) && 1 <= r <= |log| && i < BUCKETS
    requires Count(log, BelowBucket(i)) < r <= Count(log, BelowBucket(i + 1))
    ensures |s| == |log| && s[r - 1] < LIMIT && BucketOf(s[r - 1]) == i
  {
    PermutationLength(s, log);
    CountPermutation(s, log, BelowBucket(i));
    CountPermutation(s, log, BelowBucket(i + 1));
    SortedBelow(s, i, r);
    SortedBelow(s, i + 1, r);
    BucketRange(s[r - 1]);
  }

  lemma RankFallsPast(s: seq<nat>, log: seq<nat>, r: nat)
    requires SortedBy(s, AtMost) && Permutation(s, log) && 1 <= r <= |log|
    requires Count(log, BelowBucket(BUCKETS)) < r
    ensures |s| == |log| && LIMIT <= s[r - 1] <= Of(log).max
  {
    PermutationLength(s, log);
    CountPermutation(s, log, BelowBucket(BUCKETS));
    SortedBelow(s, BUCKETS, r);
    BucketRange(s[r - 1]);
    assert s[r - 1] in multiset(s);
    OfBounds(log, s[r - 1]);
  }
}
