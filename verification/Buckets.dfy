/** latency/latency.go, Buckets: a run cut into windows of equal width. Values are
    before rounding to three digits. */
module Buckets {
  import opened Sorting
  import opened Sums

  datatype Sample = Sample(epoch: int, ms: real)

  datatype Bucket = Bucket(second: int, count: nat, rate: real, p50: real, p99: real)

  predicate AtMost(a: real, b: real) {
    a <= b
  }

  predicate Before(a: int, b: int) {
    a <= b
  }

  // ----- the windows

  function Window(s: Sample, start: int, width: int): int
    requires width > 0
  {
    (s.epoch - start) / width
  }

  /** The values of the samples whose window is one of `ws`, in the order they came. */
  function Among(samples: seq<Sample>, start: int, width: int, ws: set<int>): seq<real>
    requires width > 0
  {
    if samples == [] then []
    else
      var n := |samples| - 1;
      Among(samples[..n], start, width, ws) + if Window(samples[n], start, width) in ws then [samples[n].ms] else []
  }

  function In(samples: seq<Sample>, start: int, width: int, w: int): seq<real>
    requires width > 0
  {
    Among(samples, start, width, {w})
  }

  /** A window is a span of `width` from a multiple of the width on. */
  lemma WindowIsASpan(s: Sample, start: int, width: int, w: int)
    requires width > 0
    ensures Window(s, start, width) == w <==> start + w * width <= s.epoch < start + (w + 1) * width
  {
    var d, q := s.epoch - start, Window(s, start, width);
    assert q * width <= d < (q + 1) * width;
    if w < q { Scaled(w + 1, q, width); }
    if q < w { Scaled(q + 1, w, width); }
  }

  lemma Scaled(a: int, b: int, width: int)
    requires a <= b && width > 0
    ensures a * width <= b * width
  {
  }

  lemma {:induction false} AmongSplits(samples: seq<Sample>, start: int, width: int, w: int, ws: set<int>)
    requires width > 0 && w !in ws
    ensures multiset(Among(samples, start, width, {w} + ws)) ==
            multiset(In(samples, start, width, w)) + multiset(Among(samples, start, width, ws))
  {
    if samples != [] { AmongSplits(samples[..|samples| - 1], start, width, w, ws); }
  }

  function Values(samples: seq<Sample>): seq<real> {
    if samples == [] then [] else Values(samples[..|samples| - 1]) + [samples[|samples| - 1].ms]
  }

  lemma {:induction false} AmongAll(samples: seq<Sample>, start: int, width: int, ws: set<int>)
    requires width > 0 && forall s :: s in samples ==> Window(s, start, width) in ws
    ensures Among(samples, start, width, ws) == Values(samples) && |Values(samples)| == |samples|
  {
    if samples != [] {
      var n := |samples| - 1;
      assert samples[n] in samples;
      AmongAll(samples[..n], start, width, ws);
    }
  }

  lemma {:induction false} AmongNone(samples: seq<Sample>, start: int, width: int)
    requires width > 0
    ensures Among(samples, start, width, {}) == []
  {
    if samples != [] { AmongNone(samples[..|samples| - 1], start, width); }
  }

  /** A window has values if and only if a sample falls into it. */
  lemma {:induction false} InIsInhabited(samples: seq<Sample>, start: int, width: int, w: int)
    requires width > 0
    ensures In(samples, start, width, w) != [] <==> exists s :: s in samples && Window(s, start, width) == w
  {
    if samples != [] {
      var n := |samples| - 1;
      InIsInhabited(samples[..n], start, width, w);
      assert samples == samples[..n] + [samples[n]];
      assert samples[n] in samples;
    }
  }

  /** All the windows of a list put one after another. */
  function Laid(samples: seq<Sample>, start: int, width: int, ws: seq<int>): seq<real>
    requires width > 0
  {
    if ws == [] then [] else In(samples, start, width, ws[0]) + Laid(samples, start, width, ws[1..])
  }

  lemma {:induction false} LaidIsAmong(samples: seq<Sample>, start: int, width: int, ws: seq<int>)
    requires width > 0 && Distinct(ws)
    ensures multiset(Laid(samples, start, width, ws)) == multiset(Among(samples, start, width, set w | w in ws))
  {
    if ws == [] {
      AmongNone(samples, start, width);
      assert (set w | w in ws) == {};
    } else {
      var rest := set w | w in ws[1..];
      assert (set w | w in ws) == {ws[0]} + rest;
      LaidIsAmong(samples, start, width, ws[1..]);
      AmongSplits(samples, start, width, ws[0], rest);
    }
  }

  // ----- order statistics

  function Below(p: real): real -> bool {
    (v: real) => v < p
  }

  function UpTo(p: real): real -> bool {
    (v: real) => v <= p
  }

  /** `p` is the value with exactly `k` values before it in order. */
  ghost predicate IsRanked(values: seq<real>, k: nat, p: real) {
    && p in values
    && Count(values, Below(p)) <= k < Count(values, UpTo(p))
  }

  lemma CountBelow(s: seq<real>, k: nat, p: real)
    requires SortedBy(s, AtMost) && k < |s| && p == s[k]
    ensures Count(s, Below(p)) <= k < Count(s, UpTo(p))
  {
    hide Count;
    var a, b, c, d := s[..k], s[k..], s[..k + 1], s[k + 1..];
    assert s == a + b == c + d;
    CountConcat(a, b, Below(p));
    CountConcat(c, d, UpTo(p));
    forall v | v in b ensures !Below(p)(v) {
      var i :| k <= i < |s| && s[i] == v;
      assert i > k ==> AtMost(s[k], s[i]);
    }
    CountNone(b, Below(p));
    CountBound(a, Below(p));
    forall v | v in c ensures UpTo(p)(v) {
      var i :| 0 <= i <= k && s[i] == v;
      assert i < k ==> AtMost(s[i], s[k]);
    }
    CountAll(c, UpTo(p));
  }

  lemma SortedGivesRank(values: seq<real>, k: nat)
    requires k < |values|
    ensures |Sort(values, AtMost)| == |values| && IsRanked(values, k, Sort(values, AtMost)[k])
  {
    var s := Sort(values, AtMost);
    SortSorts(values, AtMost);
    var p := s[k];
    CountBelow(s, k, p);
    CountPermutation(s, values, Below(p));
    CountPermutation(s, values, UpTo(p));
    assert p in multiset(s);
  }

  /** There is only one such value. */
  lemma RankIsUnique(values: seq<real>, k: nat, p: real, q: real)
    requires IsRanked(values, k, p) && IsRanked(values, k, q)
    ensures p == q
  {
    if p < q { CountMonotone(values, UpTo(p), Below(q)); }
    if q < p { CountMonotone(values, UpTo(q), Below(p)); }
  }

  lemma {:induction false} CountMonotone(s: seq<real>, p: real -> bool, q: real -> bool)
    requires forall v :: p(v) ==> q(v)
    ensures Count(s, p) <= Count(s, q)
  {
    if s != [] { CountMonotone(s[1..], p, q); }
  }

  // ----- the buckets

  ghost predicate IsBucket(b: Bucket, values: seq<real>, w: int, width: int)
    requires width > 0
  {
    && values != []
    && b.second == w * width && b.count == |values| && b.rate == |values| as real / width as real
    && IsRanked(values, |values| / 2, b.p50) && IsRanked(values, |values| * 99 / 100, b.p99)
    && b.p50 <= b.p99
  }

  /** The samples cut at multiples of the width from the first on: one bucket for every
      window that has a sample, in order. */
  ghost predicate IsCut(samples: seq<Sample>, start: int, width: int, ws: seq<int>, out: seq<Bucket>)
    requires width > 0
  {
    && (forall s :: s in samples ==> start <= s.epoch) && (exists s :: s in samples && s.epoch == start)
    && Increasing(ws) && (forall w :: w in ws <==> In(samples, start, width, w) != [])
    && |out| == |ws|
    && forall i :: 0 <= i < |ws| ==> IsBucket(out[i], In(samples, start, width, ws[i]), ws[i], width)
  }

  method Earliest(samples: seq<Sample>) returns (start: int)
    requires samples != []
    ensures (forall s :: s in samples ==> start <= s.epoch) && exists s :: s in samples && s.epoch == start
  {
    start := samples[0].epoch;
    for i := 0 to |samples|
      invariant forall k :: 0 <= k < i ==> start <= samples[k].epoch
      invariant exists s :: s in samples && s.epoch == start
    {
      if samples[i].epoch < start {
        start := samples[i].epoch;
        assert samples[i] in samples;
      }
    }
  }

  function At(m: map<int, seq<real>>, w: int): seq<real> {
    if w in m then m[w] else []
  }

  method ByWindow(samples: seq<Sample>, start: int, width: int) returns (m: map<int, seq<real>>)
    requires width > 0
    ensures forall w :: At(m, w) == In(samples, start, width, w) && (w in m <==> In(samples, start, width, w) != [])
  {
    m := map[];
    for i := 0 to |samples|
      invariant forall w :: At(m, w) == In(samples[..i], start, width, w)
                            && (w in m <==> In(samples[..i], start, width, w) != [])
    {
      assert samples[..i + 1][..i] == samples[..i];
      var w := (samples[i].epoch - start) / width;
      m := m[w := At(m, w) + [samples[i].ms]];
    }
    assert samples[..|samples|] == samples;
  }

  lemma SortedIncreases(ws: seq<int>, keys: seq<int>)
    requires ws == Sort(keys, Before) && Distinct(keys)
    ensures Increasing(ws) && forall w :: w in ws <==> w in keys
  {
    SortSorts(keys, Before);
    StaysDistinct(ws, keys);
    forall i, j | 0 <= i < j < |ws| ensures ws[i] < ws[j] {
      assert Before(ws[i], ws[j]);
    }
  }

  lemma HalfIsBefore(n: nat)
    requires n > 0
    ensures n / 2 <= n * 99 / 100 < n
  {
  }

  lemma Ordered(s: seq<real>, i: nat, j: nat)
    requires SortedBy(s, AtMost) && i <= j < |s|
    ensures s[i] <= s[j]
  {
    assert i < j ==> AtMost(s[i], s[j]);
  }

  lemma MakesBucket(b: Bucket, values: seq<real>, w: int, width: int)
    requires width > 0 && values != []
    requires b.second == w * width && b.count == |values| && b.rate == |values| as real / width as real
    requires IsRanked(values, |values| / 2, b.p50) && IsRanked(values, |values| * 99 / 100, b.p99) && b.p50 <= b.p99
    ensures IsBucket(b, values, w, width)
  {
  }

  method BucketOf(values: seq<real>, w: int, width: int) returns (b: Bucket)
    requires width > 0 && values != []
    ensures IsBucket(b, values, w, width)
  {
    var vals := Sort(values, AtMost);
    SortSorts(values, AtMost);
    SortedGivesRank(values, |values| / 2);
    SortedGivesRank(values, |values| * 99 / 100);
    HalfIsBefore(|vals|);
    var half, at := |vals| / 2, |vals| * 99 / 100;
    if at > |vals| - 1 { at := |vals| - 1; }
    assert at == |values| * 99 / 100;
    hide *;
    var p50 := vals[half];
    var p99 := vals[at];
    assert p50 <= p99 by { Ordered(vals, half, at); }
    b := Bucket(w * width, |vals|, |vals| as real / width as real, p50, p99);
    MakesBucket(b, values, w, width);
  }

  /** Nothing to cut gives nothing; otherwise the cut is the one described, and no other
      choice of start, windows or figures would satisfy the description. */
  method Cut(samples: seq<Sample>, width: int) returns (out: seq<Bucket>, ghost start: int, ghost ws: seq<int>)
    ensures samples == [] || width <= 0 ==> out == []
    ensures samples != [] && width > 0 ==> IsCut(samples, start, width, ws, out)
  {
    out, start, ws := [], 0, [];
    if |samples| == 0 || width <= 0 { return; }
    var first := Earliest(samples);
    var byWindow := ByWindow(samples, first, width);
    var keys := KeysOf(byWindow);
    var windows := Sort(keys, Before);
    SortedIncreases(windows, keys);
    start, ws := first, windows;
    for i := 0 to |windows|
      invariant |out| == i
      invariant forall k :: 0 <= k < i ==> IsBucket(out[k], In(samples, start, width, windows[k]), windows[k], width)
    {
      assert windows[i] in windows;
      var b := BucketOf(byWindow[windows[i]], windows[i], width);
      out := out + [b];
    }
  }

  function Counts(out: seq<Bucket>): (r: seq<int>)
    ensures |r| == |out|
  {
    seq(|out|, i requires 0 <= i < |out| => out[i].count)
  }

  lemma {:induction false} CountsOfLaid(samples: seq<Sample>, start: int, width: int, ws: seq<int>, out: seq<Bucket>)
    requires width > 0 && |ws| == |out|
    requires forall i :: 0 <= i < |ws| ==> out[i].count == |In(samples, start, width, ws[i])|
    ensures SeqSum(Counts(out)) == |Laid(samples, start, width, ws)|
    decreases |ws|
  {
    if ws != [] {
      CountsOfLaid(samples, start, width, ws[1..], out[1..]);
      assert Counts(out)[1..] == Counts(out[1..]);
    }
  }

  /** No sample is lost or counted twice: the windows together are the samples, and the
      counts add up to them. The first bucket starts at zero, and each later one on a
      later multiple of the width. */
  lemma CutPartitions(samples: seq<Sample>, start: int, width: int, ws: seq<int>, out: seq<Bucket>)
    requires width > 0 && IsCut(samples, start, width, ws, out)
    ensures Permutation(Laid(samples, start, width, ws), Values(samples))
    ensures SeqSum(Counts(out)) == |samples|
    ensures ws != [] && ws[0] == 0 && out[0].second == 0
    ensures forall i, j :: 0 <= i < j < |out| ==> out[i].second + width <= out[j].second
  {
    hide In, Window, IsRanked, Among;
    AllWindowsListed(samples, start, width, ws, out);
    LaidIsAmong(samples, start, width, ws);
    AmongAll(samples, start, width, set w | w in ws);
    CountsOfLaid(samples, start, width, ws, out);
    PermutationLength(Laid(samples, start, width, ws), Values(samples));
    StartsStep(samples, start, width, ws, out);
  }

  lemma BucketSecond(b: Bucket, values: seq<real>, w: int, width: int)
    requires width > 0 && IsBucket(b, values, w, width)
    ensures b.second == w * width
  {
  }

  lemma StartsStep(samples: seq<Sample>, start: int, width: int, ws: seq<int>, out: seq<Bucket>)
    requires width > 0 && IsCut(samples, start, width, ws, out)
    ensures ws != [] && ws[0] == 0 && out[0].second == 0
    ensures forall i, j :: 0 <= i < j < |out| ==> out[i].second + width <= out[j].second
  {
    FirstIsZero(samples, start, width, ws, out);
    hide In, IsBucket;
    forall i | 0 <= i < |out| ensures out[i].second == ws[i] * width {
      BucketSecond(out[i], In(samples, start, width, ws[i]), ws[i], width);
    }
    SpansStep(ws, out, width);
  }

  lemma SpansStep(ws: seq<int>, out: seq<Bucket>, width: int)
    requires width > 0 && Increasing(ws) && |ws| == |out| && ws != [] && ws[0] == 0
    requires forall i :: 0 <= i < |out| ==> out[i].second == ws[i] * width
    ensures out[0].second == 0
    ensures forall i, j :: 0 <= i < j < |out| ==> out[i].second + width <= out[j].second
  {
    assert 0 * width == 0;
    forall i, j | 0 <= i < j < |out| ensures out[i].second + width <= out[j].second {
      assert ws[i] < ws[j];
      Scaled(ws[i] + 1, ws[j], width);
    }
  }

  lemma AllWindowsListed(samples: seq<Sample>, start: int, width: int, ws: seq<int>, out: seq<Bucket>)
    requires width > 0 && IsCut(samples, start, width, ws, out)
    ensures Distinct(ws) && forall s :: s in samples ==> Window(s, start, width) in ws
  {
    hide In, IsBucket;
    forall s | s in samples ensures Window(s, start, width) in ws {
      InIsInhabited(samples, start, width, Window(s, start, width));
    }
  }

  lemma WindowSign(s: Sample, start: int, width: int)
    requires width > 0 && start <= s.epoch
    ensures Window(s, start, width) >= 0 && (s.epoch == start ==> Window(s, start, width) == 0)
  {
  }

  lemma FirstIsZero(samples: seq<Sample>, start: int, width: int, ws: seq<int>, out: seq<Bucket>)
    requires width > 0 && IsCut(samples, start, width, ws, out)
    ensures ws != [] && ws[0] == 0
  {
    hide In, IsBucket, Window;
    AllWindowsListed(samples, start, width, ws, out);
    var s :| s in samples && s.epoch == start;
    WindowSign(s, start, width);
    InIsInhabited(samples, start, width, ws[0]);
    var t :| t in samples && Window(t, start, width) == ws[0];
    WindowSign(t, start, width);
    var i :| 0 <= i < |ws| && ws[i] == 0;
    assert ws[0] <= ws[i];
  }

  lemma SameWindows(us: seq<int>, vs: seq<int>)
    requires Increasing(us) && Increasing(vs) && forall w :: w in us <==> w in vs
    ensures us == vs
  {
    forall w ensures multiset(us)[w] == multiset(vs)[w] {
      OnceIn(us, w);
      OnceIn(vs, w);
    }
    SortedUnique(us, vs, Before);
  }

  /** Two cuts of the same samples are the same. */
  lemma CutIsUnique(samples: seq<Sample>, width: int, a: int, us: seq<int>, out: seq<Bucket>,
                    b: int, vs: seq<int>, out': seq<Bucket>)
    requires width > 0 && IsCut(samples, a, width, us, out) && IsCut(samples, b, width, vs, out')
    ensures a == b && us == vs && out == out'
  {
    hide In, IsRanked;
    SameWindows(us, vs);
    forall i | 0 <= i < |out| ensures out[i] == out'[i] {
      var values := In(samples, a, width, us[i]);
      RankIsUnique(values, |values| / 2, out[i].p50, out'[i].p50);
      RankIsUnique(values, |values| * 99 / 100, out[i].p99, out'[i].p99);
    }
  }
}
