/** The collectors of sockets/sockets.go: what one delivery adds to a tally sheet
    (`read`), and how the sheets are folded into one (`tally`). */
module Tally {
  import opened Sorting
  import opened Sums
  import H = Histogram

  /** One change frame as its reader saw it: the row's stamp, the clock on
      arrival, and the window as loaded at that moment. */
  datatype Frame = Frame(shard: int, stamp: int, now: int, from: int, to: int)

  /** Clocks and stamps are 64-bit microseconds. */
  type Delivery = d: Frame | Late(d) <= H.MAX_UINT64 witness Frame(0, 0, 0, 0, 0)

  function Late(d: Frame): int { d.now - d.stamp }

  /** Whether a stamp falls in the published window; zero means none is open. */
  predicate InWindow(from: int, to: int, stamp: int) {
    from != 0 && from <= stamp <= to
  }

  datatype Second = Second(n: int, sum: real, worst: real)

  datatype Sheet = Sheet(hist: H.Summary, seconds: map<int, Second>, shards: map<int, int>, stray: int)

  // ----- sheets as a commutative monoid

  function Worse(a: real, b: real): real { if a > b then a else b }

  function JoinSecond(a: Second, b: Second): Second {
    Second(a.n + b.n, a.sum + b.sum, Worse(a.worst, b.worst))
  }

  const QUIET: Second := Second(0, 0.0, 0.0)

  function At(m: map<int, Second>, t: int): Second {
    if t in m then m[t] else QUIET
  }

  function JoinSeconds(a: map<int, Second>, b: map<int, Second>): map<int, Second> {
    map t | t in a.Keys + b.Keys :: JoinSecond(At(a, t), At(b, t))
  }

  function JoinShards(a: map<int, int>, b: map<int, int>): map<int, int> {
    map k | k in a.Keys + b.Keys :: Get(a, k) + Get(b, k)
  }

  /** A sheet some deliveries could have left. */
  ghost predicate Sound(s: Sheet) {
    && H.Shaped(s.hist) && s.hist.min <= H.MAX_UINT64
    && Worst0(s.seconds)
  }

  function Blank(): (s: Sheet)
    ensures Sound(s)
  {
    Sheet(H.Empty(), map[], map[], 0)
  }

  function Join(a: Sheet, b: Sheet): (r: Sheet)
    requires Sound(a) && Sound(b)
    ensures Sound(r)
  {
    Sheet(H.Plus(a.hist, b.hist), JoinSeconds(a.seconds, b.seconds), JoinShards(a.shards, b.shards), a.stray + b.stray)
  }

  ghost predicate Worst0(m: map<int, Second>) {
    forall t :: t in m ==> m[t].worst >= 0.0
  }

  lemma JoinSecondsMonoid(a: map<int, Second>, b: map<int, Second>)
    requires Worst0(a) && Worst0(b)
    ensures JoinSeconds(a, map[]) == a
    ensures JoinSeconds(a, b) == JoinSeconds(b, a)
  {
  }

  lemma AtJoin(a: map<int, Second>, b: map<int, Second>, t: int)
    ensures At(JoinSeconds(a, b), t) == JoinSecond(At(a, t), At(b, t))
  {
  }

  lemma JoinSecondAssoc(x: Second, y: Second, z: Second)
    ensures JoinSecond(JoinSecond(x, y), z) == JoinSecond(x, JoinSecond(y, z))
  {
  }

  lemma SameAt(l: map<int, Second>, r: map<int, Second>)
    requires l.Keys == r.Keys
    requires forall t :: At(l, t) == At(r, t)
    ensures l == r
  {
    forall t | t in l ensures l[t] == r[t] {
      assert At(l, t) == At(r, t);
    }
  }

  lemma JoinSecondsAssoc(a: map<int, Second>, b: map<int, Second>, c: map<int, Second>)
    ensures JoinSeconds(JoinSeconds(a, b), c) == JoinSeconds(a, JoinSeconds(b, c))
  {
    var ab, bc := JoinSeconds(a, b), JoinSeconds(b, c);
    var l, r := JoinSeconds(ab, c), JoinSeconds(a, bc);
    assert l.Keys == a.Keys + b.Keys + c.Keys == r.Keys;
    forall t ensures At(l, t) == At(r, t) {
      AtJoin(ab, c, t);
      AtJoin(a, b, t);
      AtJoin(a, bc, t);
      AtJoin(b, c, t);
      JoinSecondAssoc(At(a, t), At(b, t), At(c, t));
    }
    SameAt(l, r);
  }

  lemma SameGet(l: map<int, int>, r: map<int, int>)
    requires l.Keys == r.Keys
    requires forall k :: Get(l, k) == Get(r, k)
    ensures l == r
  {
    forall k | k in l ensures l[k] == r[k] {
      assert Get(l, k) == Get(r, k);
    }
  }

  lemma GetJoin(a: map<int, int>, b: map<int, int>, k: int)
    ensures Get(JoinShards(a, b), k) == Get(a, k) + Get(b, k)
  {
  }

  lemma JoinShardsMonoid(a: map<int, int>, b: map<int, int>, c: map<int, int>)
    ensures JoinShards(a, map[]) == a
    ensures JoinShards(a, b) == JoinShards(b, a)
    ensures JoinShards(JoinShards(a, b), c) == JoinShards(a, JoinShards(b, c))
  {
    JoinNoShards(a);
    JoinShardsComm(a, b);
    JoinShardsAssoc(a, b, c);
  }

  lemma JoinNoShards(a: map<int, int>)
    ensures JoinShards(a, map[]) == a
  {
    forall k ensures Get(JoinShards(a, map[]), k) == Get(a, k) {
      GetJoin(a, map[], k);
    }
    SameGet(JoinShards(a, map[]), a);
  }

  lemma JoinShardsComm(a: map<int, int>, b: map<int, int>)
    ensures JoinShards(a, b) == JoinShards(b, a)
  {
    forall k ensures Get(JoinShards(a, b), k) == Get(JoinShards(b, a), k) {
      GetJoin(a, b, k);
      GetJoin(b, a, k);
    }
    SameGet(JoinShards(a, b), JoinShards(b, a));
  }

  lemma JoinShardsAssoc(a: map<int, int>, b: map<int, int>, c: map<int, int>)
    ensures JoinShards(JoinShards(a, b), c) == JoinShards(a, JoinShards(b, c))
  {
    var ab, bc := JoinShards(a, b), JoinShards(b, c);
    var l, r := JoinShards(ab, c), JoinShards(a, bc);
    assert l.Keys == a.Keys + b.Keys + c.Keys == r.Keys;
    hide JoinShards, Get;
    forall k ensures Get(l, k) == Get(r, k) {
      GetJoin(a, b, k);
      GetJoin(b, c, k);
      GetJoin(ab, c, k);
      GetJoin(a, bc, k);
    }
    SameGet(l, r);
  }

  lemma JoinBlank(a: Sheet)
    requires Sound(a)
    ensures Join(a, Blank()) == a
  {
    H.PlusEmpty(a.hist);
    JoinSecondsMonoid(a.seconds, map[]);
    JoinShardsMonoid(a.shards, map[], map[]);
  }

  lemma JoinComm(a: Sheet, b: Sheet)
    requires Sound(a) && Sound(b)
    ensures Join(a, b) == Join(b, a)
  {
    H.PlusMonoid(a.hist, b.hist, a.hist);
    JoinSecondsMonoid(a.seconds, b.seconds);
    JoinShardsMonoid(a.shards, b.shards, map[]);
  }

  lemma JoinAssoc(a: Sheet, b: Sheet, c: Sheet)
    requires Sound(a) && Sound(b) && Sound(c)
    ensures Join(Join(a, b), c) == Join(a, Join(b, c))
  {
    H.PlusMonoid(a.hist, b.hist, c.hist);
    JoinSecondsAssoc(a.seconds, b.seconds, c.seconds);
    JoinShardsMonoid(a.shards, b.shards, c.shards);
  }

  // ----- what one delivery adds

  function SecondOf(d: Delivery): int { (d.stamp - d.from) / 1_000_000 }

  function Ms(d: Delivery): real { Late(d) as real / 1000.0 }

  function Ticked(s: Second, ms: real): Second {
    Second(s.n + 1, s.sum + ms, Worse(ms, s.worst))
  }

  lemma TickedJoins(s: Second, ms: real)
    requires s.worst >= 0.0
    ensures JoinSecond(s, Ticked(QUIET, ms)) == Ticked(s, ms)
  {
  }

  function One(d: Delivery): (s: Sheet)
    ensures Sound(s)
  {
    if !InWindow(d.from, d.to, d.stamp) then
      Blank().(stray := 1)
    else
      Sheet(H.Single(H.Max(Late(d), 0)), map[SecondOf(d) := Ticked(QUIET, Ms(d))], map[d.shard := 1], 0)
  }

  function SheetOf(ds: seq<Delivery>): (s: Sheet)
    ensures Sound(s)
  {
    if ds == [] then Blank() else Join(One(ds[0]), SheetOf(ds[1..]))
  }

  lemma {:induction false} SheetConcat(a: seq<Delivery>, b: seq<Delivery>)
    ensures SheetOf(a + b) == Join(SheetOf(a), SheetOf(b))
    decreases |a|
  {
    if a == [] {
      assert a + b == b;
      JoinComm(Blank(), SheetOf(b));
      JoinBlank(SheetOf(b));
    } else {
      assert (a + b)[1..] == a[1..] + b;
      SheetConcat(a[1..], b);
      JoinAssoc(One(a[0]), SheetOf(a[1..]), SheetOf(b));
    }
  }

  lemma SheetSnoc(ds: seq<Delivery>, d: Delivery)
    ensures SheetOf(ds + [d]) == Join(SheetOf(ds), One(d))
  {
    SheetConcat(ds, [d]);
    assert [d][1..] == [];
    JoinBlank(One(d));
  }

  /** A sheet does not depend on the order its deliveries came in. */
  lemma {:induction false} SheetPermutation(ds: seq<Delivery>, es: seq<Delivery>)
    requires Permutation(ds, es)
    ensures SheetOf(ds) == SheetOf(es)
    decreases |ds|
  {
    PermutationLength(ds, es);
    if ds != [] {
      var k := RemoveHead(ds, es);
      var a, b := es[..k], es[k + 1..];
      SheetPermutation(ds[1..], a + b);
      assert es == a + es[k..] && es[k..][1..] == b;
      SheetConcat(a, es[k..]);
      SheetConcat(a, b);
      var x, p, q := One(ds[0]), SheetOf(a), SheetOf(b);
      JoinAssoc(p, x, q);
      JoinComm(p, x);
      JoinAssoc(x, p, q);
    }
  }

  // ----- folding the sheets

  function TallyOf(sheets: seq<Sheet>): (s: Sheet)
    requires forall i :: 0 <= i < |sheets| ==> Sound(sheets[i])
    ensures Sound(s)
  {
    if sheets == [] then Blank() else Join(TallyOf(sheets[..|sheets| - 1]), sheets[|sheets| - 1])
  }

  function SheetsOf(logs: seq<seq<Delivery>>): (r: seq<Sheet>)
    ensures |r| == |logs| && forall i :: 0 <= i < |r| ==> r[i] == SheetOf(logs[i]) && Sound(r[i])
  {
    seq(|logs|, i requires 0 <= i < |logs| => SheetOf(logs[i]))
  }

  /** However the deliveries were split over collectors and in whatever order
      each took its own, the tally is the sheet one collector fed all of them
      would have kept. */
  lemma TallyIsOneSheet(logs: seq<seq<Delivery>>, ds: seq<Delivery>)
    requires Permutation(Flatten(logs), ds)
    ensures TallyOf(SheetsOf(logs)) == SheetOf(ds)
  {
    TallyIsFlat(logs);
    SheetPermutation(Flatten(logs), ds);
  }

  lemma {:induction false} TallyIsFlat(logs: seq<seq<Delivery>>)
    ensures TallyOf(SheetsOf(logs)) == SheetOf(Flatten(logs))
  {
    if logs != [] {
      var init := logs[..|logs| - 1];
      TallyIsFlat(init);
      SheetConcat(Flatten(init), logs[|logs| - 1]);
      SheetsInit(logs);
    }
  }

  lemma SheetsInit(logs: seq<seq<Delivery>>)
    requires logs != []
    ensures SheetsOf(logs)[..|logs| - 1] == SheetsOf(logs[..|logs| - 1])
  {
  }

  // ----- what the totals agree on

  function Ns(m: map<int, Second>): (r: map<int, int>)
    ensures r.Keys == m.Keys
  {
    map t | t in m :: m[t].n
  }

  ghost predicate Agree(s: Sheet, n: int) {
    && MapSum(s.shards) == MapSum(Ns(s.seconds)) == s.hist.count
    && s.hist.count + s.stray == n
    && forall t :: t in s.seconds ==> s.seconds[t].n >= 1
  }

  /** Every delivery in the window is in exactly one bucket, one second and one
      shard, and every other one is a stray. */
  lemma {:induction false} CountsAgree(ds: seq<Delivery>)
    ensures Agree(SheetOf(ds), |ds|)
  {
    if ds != [] {
      CountsAgree(ds[1..]);
      JoinComm(One(ds[0]), SheetOf(ds[1..]));
      OneMoreAgrees(SheetOf(ds[1..]), ds[0], |ds| - 1);
    }
  }

  lemma OneMoreAgrees(s: Sheet, d: Delivery, n: int)
    requires Sound(s) && Agree(s, n)
    ensures Agree(Join(s, One(d)), n + 1)
  {
    var r := Join(s, One(d));
    if InWindow(d.from, d.to, d.stamp) {
      var t := SecondOf(d);
      var x := One(d).seconds[t];
      JoinOneSecond(s.seconds, t, x);
      JoinOneShard(s.shards, d.shard);
      OneMoreSecond(s.seconds, t, x);
      MapSumUpdate(s.shards, d.shard, Get(s.shards, d.shard) + 1);
    } else {
      JoinSecondsMonoid(s.seconds, map[]);
      JoinShardsMonoid(s.shards, map[], map[]);
    }
  }

  lemma OneMoreSecond(m: map<int, Second>, t: int, x: Second)
    requires x.n == 1
    ensures MapSum(Ns(m[t := JoinSecond(At(m, t), x)])) == MapSum(Ns(m)) + 1
  {
    var v := Get(Ns(m), t) + 1;
    assert Ns(m[t := JoinSecond(At(m, t), x)]) == Ns(m)[t := v];
    MapSumUpdate(Ns(m), t, v);
  }

  lemma JoinOneSecond(m: map<int, Second>, t: int, x: Second)
    requires Worst0(m)
    ensures JoinSeconds(m, map[t := x]) == m[t := JoinSecond(At(m, t), x)]
  {
  }

  lemma JoinOneShard(m: map<int, int>, k: int)
    ensures JoinShards(m, map[k := 1]) == m[k := Get(m, k) + 1]
  {
    var one: map<int, int> := map[k := 1];
    forall j ensures Get(JoinShards(m, one), j) == Get(m[k := Get(m, k) + 1], j) {
      GetJoin(m, one, j);
    }
    SameGet(JoinShards(m, one), m[k := Get(m, k) + 1]);
  }
}
