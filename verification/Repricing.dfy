/** Re-pricing a recorded run gives the dollars the run printed, and exactly when. */
module Repricing {
  import opened Counters
  import opened Pricing
  import opened Options

  /** A class with no operations moved no bytes. */
  predicate Consistent(c: seq<nat>, kind: nat)
    requires IsCounters(c) && kind < KINDS
  {
    forall k: nat :: k < CLASSES ==>
      (SlotsApart(kind, k, kind, k); c[CountSlot(kind, k)] == 0 ==> c[CountSlot(kind, k) + 1] == 0)
  }

  /** The kinds whose bytes are billed: both gets and both puts. */
  predicate WellFormed(c: seq<nat>)
    requires IsCounters(c)
  {
    Consistent(c, 0) && Consistent(c, 1) && Consistent(c, 2) && Consistent(c, 3)
  }

  lemma {:induction false} SilentUpTo(c: seq<nat>, kind: nat, n: nat)
    requires IsCounters(c) && kind < KINDS && n <= CLASSES
    ensures SilentBytes(c, kind, n) == 0 <==>
            forall k: nat :: k < n ==>
              (SlotsApart(kind, k, kind, k); c[CountSlot(kind, k)] == 0 ==> c[CountSlot(kind, k) + 1] == 0)
  {
    if n > 0 {
      SilentUpTo(c, kind, n - 1);
      SlotsApart(kind, n - 1, kind, n - 1);
    }
  }

  lemma ConsistentIff(c: seq<nat>, kind: nat)
    requires IsCounters(c) && kind < KINDS
    ensures Consistent(c, kind) <==> SilentBytes(c, kind, CLASSES) == 0
  {
    SilentUpTo(c, kind, CLASSES);
  }

  function Silent(c: seq<nat>, kind: nat): nat
    requires IsCounters(c) && kind < KINDS
  {
    SilentBytes(c, kind, CLASSES)
  }

  /** A kind read back from the file: its count, and its bytes less what Report
      left out. */
  lemma ReadBack(c: seq<nat>, ops: map<string, Block>, kind: nat)
    requires Reports(c, ops) && kind < KINDS
    ensures KindOf(OpsJson(ops), OpName(kind)) == (CountOf(c, kind), BytesOf(c, kind) - Silent(c, kind))
  {
    assert ReportsKind(c, ops, kind);
    if OpName(kind) in ops {
      var b := ops[OpName(kind)];
      assert OpsJson(ops)[OpName(kind)] == BlockJson(b);
      assert "count" != "bytes" by { assert "count"[0] != "bytes"[0]; }
      Whole(b.count);
      Whole(b.bytes);
    } else {
      SilentKind(c, kind, CLASSES);
    }
  }

  /** Whole numbers survive being written, read as floats and truncated. */
  lemma Whole(n: int)
    ensures IntOf(Some(Number(n))) == n
  {
  }

  lemma KeysDiffer()
    ensures "store" != "store_ops" && "store" != "transactions" && "store" != "pg_delta"
    ensures "store_ops" != "transactions" && "store_ops" != "pg_delta" && "transactions" != "pg_delta"
    ensures "bytes_before" != "bytes_after" && "bytes_after" != "bytes_delta" && "bytes_before" != "bytes_delta"
  {
    assert |"store"| == 5 && |"store_ops"| == 9 && |"transactions"| == 12 && |"pg_delta"| == 8;
    assert |"bytes_before"| == 12 && "bytes_after"[6] == 'a' && "bytes_delta"[6] == 'd';
  }

  lemma OpsFound(r: Run, ops: map<string, Block>)
    ensures MapOf(MapOf(Some(Written(r, ops)), "store_ops"), "ops") == (if r.delta.Some? then Some(OpsJson(ops)) else None)
  {
    KeysDiffer();
  }

  lemma StoreFound(r: Run, ops: map<string, Block>)
    ensures var store := MapOf(Some(Written(r, ops)), "store");
            && (store.Some? <==> r.store.Some?)
            && (store.Some? ==> IntOf(Field(store.value, "bytes_after")) == r.store.value.1
                                && IntOf(Field(store.value, "bytes_delta")) == r.store.value.1 - r.store.value.0)
  {
    KeysDiffer();
  }

  lemma CountsFound(r: Run, ops: map<string, Block>)
    ensures var f := Written(r, ops);
            var db := MapOf(MapOf(Some(f), "pg_delta"), "database");
            && IntOf(Field(f, "transactions")) == (if r.transactions.Some? then r.transactions.value else 0)
            && (if db.Some? then IntOf(Field(db.value, "xact_commit")) else 0) == Trunc(Commit(r))
  {
    KeysDiffer();
  }

  /** The usage rebuilt from the file is the run's own, short of the bytes of
      silent classes, and with a commit count that may be zero or less where the
      run kept none. */
  lemma Rebuilt(r: Run, ops: map<string, Block>)
    requires Sound(r) && r.delta.Some? && Reports(r.delta.value, ops)
    ensures var c, u := r.delta.value, UsageOf(r);
            var t := TotalsOf(c);
            FileUsage(Written(r, ops), false) ==
              (u.(puts := t.puts, gets := t.gets, lists := t.lists, deletes := t.deletes,
                  uploadBytes := t.putBytes - Silent(c, 2) - Silent(c, 3),
                  downloadBytes := t.getBytes - Silent(c, 0) - Silent(c, 1),
                  measured := t.anyTraffic, commits := Trunc(Commit(r))), t.anyTraffic)
  {
    hide Written, OpsJson, KindOf, KindSum, SilentBytes, Trunc;
    var c := r.delta.value;
    OpsFound(r, ops);
    StoreFound(r, ops);
    CountsFound(r, ops);
    ReadBack(c, ops, 0);
    ReadBack(c, ops, 1);
    ReadBack(c, ops, 2);
    ReadBack(c, ops, 3);
    ReadBack(c, ops, 4);
    ReadBack(c, ops, 5);
  }

  /** A commit count of zero or less prices like none at all. */
  lemma CommitsPriceAlike(c: Card, u: Usage, x: real)
    requires Usable(c) && u.commits == (if x > 0.0 then Trunc(x) else 0)
    ensures BillOf(c, u) == BillOf(c, u.(commits := Trunc(x)))
  {
    var v := u.(commits := Trunc(x));
    assert x <= 0.0 ==> Trunc(x) <= 0 by { if x <= 0.0 { assert (-x).Floor >= 0; } }
    assert Transfer(c, v) == Transfer(c, u) && Egress(c, v) == Egress(c, u);
    assert Work(c, v) == Work(c, u);
  }

  /** With no silent bytes the file prices as the run did, on every card. */
  lemma RepricingAgrees(r: Run, ops: map<string, Block>, c: Card)
    requires Sound(r) && r.delta.Some? && Reports(r.delta.value, ops) && Usable(c)
    requires TotalsOf(r.delta.value).anyTraffic && WellFormed(r.delta.value)
    ensures FileUsage(Written(r, ops), false).1
    ensures BillOf(c, FileUsage(Written(r, ops), false).0) == BillOf(c, UsageOf(r))
  {
    var k := r.delta.value;
    Rebuilt(r, ops);
    ConsistentIff(k, 0);
    ConsistentIff(k, 1);
    ConsistentIff(k, 2);
    ConsistentIff(k, 3);
    assert FileUsage(Written(r, ops), false).0 == UsageOf(r).(commits := Trunc(Commit(r)));
    CommitsPriceAlike(c, UsageOf(r), Commit(r));
  }

  /** What the bytes that Report leaves out cost to move. */
  function SilentCost(c: Card, k: seq<nat>): real
    requires IsCounters(k)
  {
    (Silent(k, 2) + Silent(k, 3)) as real * c.upload + (Silent(k, 0) + Silent(k, 1)) as real * c.retrieval
  }

  lemma TransferGap(c: Card, u: Usage, up: int, down: int)
    requires Usable(c)
    ensures var v := u.(uploadBytes := u.uploadBytes - up, downloadBytes := u.downloadBytes - down);
            Transfer(c, u) - Transfer(c, v) == (up as real * c.upload + down as real * c.retrieval) / c.gbBytes
  {
    PerGB(u.uploadBytes as real, up as real, c.gbBytes, c.upload);
    PerGB(u.downloadBytes as real, down as real, c.gbBytes, c.retrieval);
    var a, b := up as real * c.upload, down as real * c.retrieval;
    assert a / c.gbBytes + b / c.gbBytes == (a + b) / c.gbBytes;
  }

  lemma PerGB(n: real, m: real, gb: real, price: real)
    requires gb > 0.0
    ensures n / gb * price - (n - m) / gb * price == m * price / gb
  {
    var x, y := n / gb, (n - m) / gb;
    assert x - y == m / gb;
    assert x * price - y * price == (x - y) * price;
    assert m / gb * price == m * price / gb;
  }

  lemma ZeroPerGB(x: real, gb: real)
    requires gb > 0.0
    ensures x / gb == 0.0 <==> x == 0.0
  {
    var q := x / gb;
    assert q * gb == x;
  }

  /** Without egress two usages that differ in bytes alone are billed alike if and only if
      moving those bytes costs the same. */
  lemma BilledAlike(c: Card, u: Usage, v: Usage)
    requires Usable(c) && u.measured && !u.egress
    requires v == u.(uploadBytes := v.uploadBytes, downloadBytes := v.downloadBytes)
    ensures BillOf(c, u) == BillOf(c, v) <==> Transfer(c, u) == Transfer(c, v)
  {
    hide Transfer, Requests;
  }

  /** On one card the file prices as the run did if and only if the bytes of classes
      without operations cost nothing there. */
  lemma RepricingAgreesOnCardIff(r: Run, ops: map<string, Block>, c: Card)
    requires Sound(r) && r.delta.Some? && Reports(r.delta.value, ops) && Usable(c)
    requires TotalsOf(r.delta.value).anyTraffic
    ensures BillOf(c, FileUsage(Written(r, ops), false).0) == BillOf(c, UsageOf(r)) <==> SilentCost(c, r.delta.value) == 0.0
  {
    hide BillOf, FileUsage, Written, Transfer, SilentBytes, KindSum;
    var k, first := r.delta.value, UsageOf(r);
    Rebuilt(r, ops);
    CommitsPriceAlike(c, first, Commit(r));
    var mid := first.(commits := Trunc(Commit(r)));
    var up, down := Silent(k, 2) + Silent(k, 3), Silent(k, 0) + Silent(k, 1);
    var again := mid.(uploadBytes := mid.uploadBytes - up, downloadBytes := mid.downloadBytes - down);
    assert FileUsage(Written(r, ops), false).0 == again;
    BilledAlike(c, mid, again);
    TransferGap(c, mid, up, down);
    ZeroPerGB(SilentCost(c, k), c.gbBytes);
  }

  const UPLOAD: Card := Card(1.0, 0.0, 0.0, 0.0, 0.0, 1.0, 0.0, 0.0, 0.0, 0.0)
  const RETRIEVAL: Card := Card(1.0, 0.0, 0.0, 0.0, 0.0, 0.0, 1.0, 0.0, 0.0, 0.0)

  lemma TransferOnly(u: Usage)
    requires u.measured && !u.egress
    ensures BillOf(UPLOAD, u).workload == Some(u.uploadBytes as real)
    ensures BillOf(RETRIEVAL, u).workload == Some(u.downloadBytes as real)
  {
  }

  /** And it does so on every card only then: a class of get or put with bytes and
      no operations makes the two bills differ wherever transfer is charged. */
  lemma RepricingAgreesIff(r: Run, ops: map<string, Block>)
    requires Sound(r) && r.delta.Some? && Reports(r.delta.value, ops) && TotalsOf(r.delta.value).anyTraffic
    ensures (forall c :: Usable(c) ==> BillOf(c, FileUsage(Written(r, ops), false).0) == BillOf(c, UsageOf(r)))
            <==> WellFormed(r.delta.value)
  {
    var k, again, first := r.delta.value, FileUsage(Written(r, ops), false).0, UsageOf(r);
    if WellFormed(k) {
      forall c | Usable(c) ensures BillOf(c, again) == BillOf(c, first) {
        RepricingAgrees(r, ops, c);
      }
    } else {
      Rebuilt(r, ops);
      ConsistentIff(k, 0);
      ConsistentIff(k, 1);
      ConsistentIff(k, 2);
      ConsistentIff(k, 3);
      TransferOnly(again);
      TransferOnly(first);
      assert Usable(UPLOAD) && Usable(RETRIEVAL);
      assert again.uploadBytes != first.uploadBytes || again.downloadBytes != first.downloadBytes;
    }
  }

  /** One get in the first class, and five bytes without a count in the second. */
  function OddCounters(): (c: seq<nat>)
    ensures IsCounters(c)
  {
    seq(SLOTS, i => if i == CountSlot(0, 0) then 1 else if i == CountSlot(0, 1) + 1 then 5 else 0)
  }

  lemma {:induction false} KindSumHas(c: seq<nat>, kind: nat, k: nat, n: nat)
    requires IsCounters(c) && kind < KINDS && k < n <= CLASSES
    ensures CountSlot(kind, k) < SLOTS && KindSum(c, kind, 0, n) >= c[CountSlot(kind, k)]
  {
    SlotsApart(kind, k, kind, k);
    SlotsApart(kind, n - 1, kind, n - 1);
    if k < n - 1 { KindSumHas(c, kind, k, n - 1); }
  }

  /** Counters on which the two bills differ: a card that charges for retrieval prices the
      five bytes as the run ends and not from the file. */
  lemma OddCountersPriceApart(r: Run, ops: map<string, Block>)
    requires r.delta == Some(OddCounters()) && Reports(OddCounters(), ops)
    ensures !WellFormed(OddCounters()) && TotalsOf(OddCounters()).anyTraffic
    ensures BillOf(RETRIEVAL, FileUsage(Written(r, ops), false).0) != BillOf(RETRIEVAL, UsageOf(r))
    ensures forall c :: Usable(c) && c.upload == c.retrieval == 0.0 ==>
              BillOf(c, FileUsage(Written(r, ops), false).0) == BillOf(c, UsageOf(r))
  {
    var k := OddCounters();
    SlotsApart(0, 0, 0, 1);
    SlotsApart(0, 1, 0, 1);
    assert k[CountSlot(0, 0)] == 1 && k[CountSlot(0, 1)] == 0 && k[CountSlot(0, 1) + 1] == 5;
    hide BillOf, FileUsage, Written, UsageOf, SilentBytes, KindSum, OddCounters;
    KindSumHas(k, 0, 0, CLASSES);
    ConsistentIff(k, 0);
    assert Silent(k, 0) > 0;
    assert SilentCost(RETRIEVAL, k) > 0.0;
    RepricingAgreesOnCardIff(r, ops, RETRIEVAL);
    forall c | Usable(c) && c.upload == c.retrieval == 0.0
      ensures BillOf(c, FileUsage(Written(r, ops), false).0) == BillOf(c, UsageOf(r)) {
      RepricingAgreesOnCardIff(r, ops, c);
    }
  }

  /** A window that saw no traffic is unmeasured both times. */
  lemma NoTrafficIsUnmeasured(r: Run, ops: map<string, Block>)
    requires Sound(r) && r.delta.Some? && Reports(r.delta.value, ops) && !TotalsOf(r.delta.value).anyTraffic
    ensures !FileUsage(Written(r, ops), false).1 && !UsageOf(r).measured
  {
    Rebuilt(r, ops);
  }
}
