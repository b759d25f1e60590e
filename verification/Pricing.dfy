/** The bill, and the two ways to it: the usage a run builds as it ends
    (cmd/zoubench/run.go) and the usage rebuilt later from the file it wrote
    (cmd/zoubench/cost.go), both priced by cost/cost.go. Dollars are before
    rounding. */
module Pricing {
  import opened Counters
  import opened Options

  // ----- the price of a usage

  datatype Card = Card(gbBytes: real, storage: real, classA: real, classB: real, delete: real, upload: real,
                       retrieval: real, egress: real, freeGB: real, freeTimesStorage: real)

  /** Load refuses every other card. */
  predicate Usable(c: Card) { c.gbBytes > 0.0 }

  datatype Usage = Usage(storageBytes: int, puts: int, gets: int, lists: int, deletes: int, uploadBytes: int,
                         downloadBytes: int, measured: bool, egress: bool, txns: int, commits: int, ingestedBytes: int)

  const NO_USAGE: Usage := Usage(0, 0, 0, 0, 0, 0, 0, false, false, 0, 0, 0)

  /** The lines of a cost block; a line that is not there, or that holds a
      sentence instead of a number, is None. */
  datatype Bill = Bill(storage: real, ops: Option<real>, transfer: Option<real>, egress: Option<real>,
                       workload: Option<real>, perMTxns: Option<real>, perMCommits: Option<real>, perGB: Option<real>)

  /** A list is billed with the puts. */
  function Requests(c: Card, puts: int, gets: int, lists: int, deletes: int): real {
    (puts + lists) as real / 1000000.0 * c.classA + gets as real / 1000000.0 * c.classB
    + deletes as real / 1000000.0 * c.delete
  }

  function Transfer(c: Card, u: Usage): real
    requires Usable(c)
  {
    u.uploadBytes as real / c.gbBytes * c.upload + u.downloadBytes as real / c.gbBytes * c.retrieval
  }

  function Egress(c: Card, u: Usage): real
    requires Usable(c)
  {
    var free := c.freeGB + u.storageBytes as real / c.gbBytes * c.freeTimesStorage;
    var billable := u.downloadBytes as real / c.gbBytes - free;
    (if billable < 0.0 then 0.0 else billable) * c.egress
  }

  function Work(c: Card, u: Usage): real
    requires Usable(c)
  {
    Requests(c, u.puts, u.gets, u.lists, u.deletes) + Transfer(c, u) + (if u.egress then Egress(c, u) else 0.0)
  }

  function Per(work: real, n: int, scale: real): Option<real> {
    if n > 0 then Some(work / n as real * scale) else None
  }

  function BillOf(c: Card, u: Usage): Bill
    requires Usable(c)
  {
    var storage := u.storageBytes as real / c.gbBytes * c.storage;
    if !u.measured then Bill(storage, None, None, None, None, None, None, None)
    else
      var work := Work(c, u);
      Bill(storage,
           Some(Requests(c, u.puts, u.gets, u.lists, u.deletes)),
           if Transfer(c, u) > 0.0 then Some(Transfer(c, u)) else None,
           if u.egress then Some(Egress(c, u)) else None,
           Some(work),
           Per(work, u.txns, 1000000.0),
           Per(work, u.commits, 1000000.0),
           if u.ingestedBytes > 0 then Some(work / (u.ingestedBytes as real / c.gbBytes)) else None)
  }

  method Compute(c: Card, u: Usage) returns (out: Bill)
    requires Usable(c)
    ensures out == BillOf(c, u)
  {
    hide Requests;
    var storageGB := u.storageBytes as real / c.gbBytes;
    out := Bill(storageGB * c.storage, None, None, None, None, None, None, None);
    if !u.measured {
      return;
    }
    var ops := Requests(c, u.puts, u.gets, u.lists, u.deletes);
    var transfer := u.uploadBytes as real / c.gbBytes * c.upload + u.downloadBytes as real / c.gbBytes * c.retrieval;
    assert transfer == Transfer(c, u);
    out := out.(ops := Some(ops));
    if transfer > 0.0 {
      out := out.(transfer := Some(transfer));
    }
    var work := ops + transfer;
    if u.egress {
      var free := c.freeGB + storageGB * c.freeTimesStorage;
      var billable := u.downloadBytes as real / c.gbBytes - free;
      if billable < 0.0 {
        billable := 0.0;
      }
      var egress := billable * c.egress;
      assert egress == Egress(c, u);
      out := out.(egress := Some(egress));
      work := work + egress;
    }
    assert work == Work(c, u);
    hide Transfer, Egress, Work;
    out := out.(workload := Some(work));
    if u.txns > 0 {
      out := out.(perMTxns := Some(work / u.txns as real * 1000000.0));
    }
    if u.commits > 0 {
      out := out.(perMCommits := Some(work / u.commits as real * 1000000.0));
    }
    if u.ingestedBytes > 0 {
      out := out.(perGB := Some(work / (u.ingestedBytes as real / c.gbBytes)));
    }
  }

  function Amount(line: Option<real>): real {
    match line case None => 0.0 case Some(x) => x
  }

  /** The printed lines add up to the workload exactly when transfer is not negative,
      which prices and sizes that are not negative guarantee; and a price per unit
      times the units is the workload again. */
  lemma LinesAddUp(c: Card, u: Usage)
    requires Usable(c) && u.measured
    ensures var b := BillOf(c, u);
            && (Amount(b.ops) + Amount(b.transfer) + Amount(b.egress) == Amount(b.workload) <==> Transfer(c, u) >= 0.0)
            && (u.txns > 0 ==> Amount(b.perMTxns) * u.txns as real == Amount(b.workload) * 1000000.0)
            && (u.commits > 0 ==> Amount(b.perMCommits) * u.commits as real == Amount(b.workload) * 1000000.0)
  {
    hide Requests, Transfer, Egress;
    var work := Work(c, u);
    if u.txns > 0 { PerTimesUnits(work, u.txns); }
    if u.commits > 0 { PerTimesUnits(work, u.commits); }
  }

  lemma PerTimesUnits(work: real, n: int)
    requires n > 0
    ensures work / n as real * 1000000.0 * n as real == work * 1000000.0
  {
    var each := work / n as real;
    assert each * n as real == work;
    assert each * 1000000.0 * n as real == each * n as real * 1000000.0;
  }

  /** What a request costs: nothing without any, and `n` more of a kind raise the line by
      `n` millionths of that kind's price, a list at the price of a put. */
  lemma RequestPrices(c: Card, u: Usage, n: int)
    requires Usable(c) && u.measured
    ensures var ops, each := Amount(BillOf(c, u).ops), n as real / 1000000.0;
            && BillOf(c, u.(puts := 0, gets := 0, lists := 0, deletes := 0)).ops == Some(0.0)
            && BillOf(c, u.(puts := u.puts + n)).ops == Some(ops + each * c.classA)
            && BillOf(c, u.(lists := u.lists + n)).ops == Some(ops + each * c.classA)
            && BillOf(c, u.(gets := u.gets + n)).ops == Some(ops + each * c.classB)
            && BillOf(c, u.(deletes := u.deletes + n)).ops == Some(ops + each * c.delete)
  {
    RequestsRise(c, u.puts, u.gets, u.lists, u.deletes, n);
    hide Requests, Transfer, Egress, Work, Per;
  }

  lemma RequestsRise(c: Card, puts: int, gets: int, lists: int, deletes: int, n: int)
    ensures var ops, each := Requests(c, puts, gets, lists, deletes), n as real / 1000000.0;
            && Requests(c, 0, 0, 0, 0) == 0.0
            && Requests(c, puts + n, gets, lists, deletes) == ops + each * c.classA
            && Requests(c, puts, gets, lists + n, deletes) == ops + each * c.classA
            && Requests(c, puts, gets + n, lists, deletes) == ops + each * c.classB
            && Requests(c, puts, gets, lists, deletes + n) == ops + each * c.delete
  {
    Spread((puts + lists) as real, n as real, c.classA);
    Spread(gets as real, n as real, c.classB);
    Spread(deletes as real, n as real, c.delete);
    assert (puts + n + lists) as real == (puts + lists) as real + n as real;
    assert (puts + (lists + n)) as real == (puts + lists) as real + n as real;
  }

  lemma ByTheGB(bytes: real, gb: real, price: real)
    requires gb > 0.0
    ensures bytes / gb * price * gb == bytes * price
  {
    var n := bytes / gb;
    assert n * gb == bytes;
    assert n * price * gb == n * gb * price;
  }

  lemma SumTimes(x: real, y: real, gb: real)
    ensures (x + y) * gb == x * gb + y * gb
  {
  }

  /** Bytes stored are billed by the GB, measured or not, and nothing else is unless the
      requests were measured. */
  lemma StorageIsByTheGB(c: Card, u: Usage)
    requires Usable(c)
    ensures BillOf(c, u).storage * c.gbBytes == u.storageBytes as real * c.storage
    ensures !u.measured ==> BillOf(c, u) == Bill(BillOf(c, u).storage, None, None, None, None, None, None, None)
  {
    hide Requests, Transfer, Egress, Work, Per;
    ByTheGB(u.storageBytes as real, c.gbBytes, c.storage);
  }

  /** Bytes moved are billed by the GB at the price of their direction, on a line that is
      there only if they cost something. */
  lemma TransferIsByTheGB(c: Card, u: Usage)
    requires Usable(c) && u.measured
    ensures var moved, line := u.uploadBytes as real * c.upload + u.downloadBytes as real * c.retrieval, BillOf(c, u).transfer;
            Transfer(c, u) * c.gbBytes == moved && line == (if moved > 0.0 then Some(Transfer(c, u)) else None)
  {
    hide Requests, Egress, Work, Per;
    var up, down := u.uploadBytes as real / c.gbBytes * c.upload, u.downloadBytes as real / c.gbBytes * c.retrieval;
    ByTheGB(u.uploadBytes as real, c.gbBytes, c.upload);
    ByTheGB(u.downloadBytes as real, c.gbBytes, c.retrieval);
    SumTimes(up, down, c.gbBytes);
    SameSign(up + down, c.gbBytes);
  }

  lemma SameSign(x: real, gb: real)
    requires gb > 0.0
    ensures x > 0.0 <==> x * gb > 0.0
  {
  }

  /** Egress is free up to the allowance, which grows with what is stored, and by the GB
      above it. */
  lemma EgressIsAboveTheAllowance(c: Card, u: Usage)
    requires Usable(c) && u.measured
    ensures var free := c.freeGB * c.gbBytes + u.storageBytes as real * c.freeTimesStorage;
            var over, line := u.downloadBytes as real - free, BillOf(c, u).egress;
            && (line.Some? <==> u.egress)
            && (u.egress ==> line.value * c.gbBytes == if over > 0.0 then over * c.egress else 0.0)
  {
    hide Requests, Transfer, Work, Per;
    var gb, stored := c.gbBytes, u.storageBytes as real / c.gbBytes * c.freeTimesStorage;
    var billable := u.downloadBytes as real / gb - (c.freeGB + stored);
    var over := u.downloadBytes as real - (c.freeGB * gb + u.storageBytes as real * c.freeTimesStorage);
    ByTheGB(u.storageBytes as real, gb, c.freeTimesStorage);
    SumTimes(c.freeGB, stored, gb);
    assert u.downloadBytes as real / gb * gb == u.downloadBytes as real;
    SumTimes(billable, c.freeGB + stored, gb);
    assert billable * gb == over;
    SameSign(billable, gb);
    assert billable * c.egress * gb == billable * gb * c.egress;
    assert Egress(c, u) == (if billable < 0.0 then 0.0 else billable) * c.egress;
    assert billable == 0.0 ==> over == 0.0;
  }

  /** The workload is the requests, the bytes moved and any egress, and each unit price is
      there exactly when its units were counted and times them is the workload. */
  lemma WorkloadAndItsUnits(c: Card, u: Usage)
    requires Usable(c) && u.measured
    ensures var b := BillOf(c, u);
            && b.ops.Some? && b.workload == Some(b.ops.value + Transfer(c, u) + Amount(b.egress))
            && (b.perMTxns.Some? <==> u.txns > 0)
            && (b.perMTxns.Some? ==> b.perMTxns.value * u.txns as real == b.workload.value * 1000000.0)
            && (b.perMCommits.Some? <==> u.commits > 0)
            && (b.perMCommits.Some? ==> b.perMCommits.value * u.commits as real == b.workload.value * 1000000.0)
            && (b.perGB.Some? <==> u.ingestedBytes > 0)
            && (b.perGB.Some? ==> b.perGB.value * u.ingestedBytes as real == b.workload.value * c.gbBytes)
  {
    hide Requests, Transfer, Egress;
    var work := Work(c, u);
    if u.txns > 0 { PerTimesUnits(work, u.txns); }
    if u.commits > 0 { PerTimesUnits(work, u.commits); }
    if u.ingestedBytes > 0 { PerGBTimesBytes(work, u.ingestedBytes as real, c.gbBytes); }
  }

  lemma PerGBTimesBytes(work: real, bytes: real, gb: real)
    requires gb > 0.0 && bytes > 0.0
    ensures bytes / gb > 0.0 && work / (bytes / gb) * bytes == work * gb
  {
    var n := bytes / gb;
    assert n * gb == bytes;
    assert n > 0.0;
    var each := work / n;
    assert each * n == work;
    assert each * bytes == each * (n * gb) == each * n * gb;
  }

  /** The request dollars of two phases are those of the whole. */
  lemma RequestsTile(c: Card, x: Totals, y: Totals, z: Totals)
    requires z.puts == x.puts + y.puts && z.gets == x.gets + y.gets
    requires z.lists == x.lists + y.lists && z.deletes == x.deletes + y.deletes
    ensures Requests(c, z.puts, z.gets, z.lists, z.deletes)
         == Requests(c, x.puts, x.gets, x.lists, x.deletes) + Requests(c, y.puts, y.gets, y.lists, y.deletes)
  {
    Spread((x.puts + x.lists) as real, (y.puts + y.lists) as real, c.classA);
    Spread(x.gets as real, y.gets as real, c.classB);
    Spread(x.deletes as real, y.deletes as real, c.delete);
    assert (z.puts + z.lists) as real == (x.puts + x.lists) as real + (y.puts + y.lists) as real;
  }

  lemma Spread(a: real, b: real, rate: real)
    ensures (a + b) / 1000000.0 * rate == a / 1000000.0 * rate + b / 1000000.0 * rate
  {
    assert (a + b) / 1000000.0 == a / 1000000.0 + b / 1000000.0;
  }

  /** What loading cost and what the timed window cost add up to what the whole
      would have, request for request. */
  lemma LoadPlusWindowIsWhole(card: Card, a: seq<nat>, b: seq<nat>, c: seq<nat>, x: seq<nat>, y: seq<nat>, z: seq<nat>)
    requires IsDiff(a, b, x) && IsDiff(b, c, y) && IsDiff(a, c, z)
    ensures var s, t, w := TotalsOf(x), TotalsOf(y), TotalsOf(z);
            Requests(card, w.puts, w.gets, w.lists, w.deletes)
            == Requests(card, s.puts, s.gets, s.lists, s.deletes) + Requests(card, t.puts, t.gets, t.lists, t.deletes)
  {
    DiffsTile(a, b, c, x, y);
    TotalsTile(x, y, z);
    RequestsTile(card, TotalsOf(x), TotalsOf(y), TotalsOf(z));
  }

  // ----- the usage at the end of a run

  /** What one run measured: the store before and after if it is local, the
      counters over the window if there is a counter file, the driver's
      transaction count, and postgres's own deltas. */
  datatype Run = Run(store: Option<(int, int)>, delta: Option<seq<nat>>, transactions: Option<int>,
                     database: Option<map<string, real>>)

  predicate Sound(r: Run) { r.delta.Some? ==> IsCounters(r.delta.value) }

  /** A Go conversion from float to integer, towards zero. */
  function Trunc(x: real): int { if x < 0.0 then -((-x).Floor) else x.Floor }

  method RunUsage(r: Run) returns (u: Usage)
    requires Sound(r)
    ensures u == UsageOf(r)
  {
    u := NO_USAGE;
    if r.store.Some? {
      var (before, after) := r.store.value;
      u := u.(storageBytes := after);
      var grew := after - before;
      if grew > 0 {
        u := u.(ingestedBytes := grew);
      }
    }
    if r.delta.Some? {
      var t := Sum(r.delta.value);
      if t.anyTraffic {
        u := u.(puts := t.puts, gets := t.gets, lists := t.lists, deletes := t.deletes,
                uploadBytes := t.putBytes, downloadBytes := t.getBytes, measured := true);
      }
    }
    if r.transactions.Some? {
      u := u.(txns := r.transactions.value);
    }
    if r.database.Some? && "xact_commit" in r.database.value && r.database.value["xact_commit"] > 0.0 {
      u := u.(commits := Trunc(r.database.value["xact_commit"]));
    }
  }

  function Commit(r: Run): real {
    if r.database.Some? && "xact_commit" in r.database.value then r.database.value["xact_commit"] else 0.0
  }

  function UsageOf(r: Run): Usage
    requires Sound(r)
  {
    var grew := if r.store.Some? then r.store.value.1 - r.store.value.0 else 0;
    var idle := Usage(if r.store.Some? then r.store.value.1 else 0, 0, 0, 0, 0, 0, 0, false, false,
                      if r.transactions.Some? then r.transactions.value else 0,
                      if Commit(r) > 0.0 then Trunc(Commit(r)) else 0,
                      if grew > 0 then grew else 0);
    if r.delta.None? || !TotalsOf(r.delta.value).anyTraffic then idle
    else
      var t := TotalsOf(r.delta.value);
      idle.(puts := t.puts, gets := t.gets, lists := t.lists, deletes := t.deletes,
            uploadBytes := t.putBytes, downloadBytes := t.getBytes, measured := true)
  }

  /** Truncation goes towards zero. */
  lemma TruncIsWhole(x: real)
    requires x >= 0.0
    ensures Trunc(x) as real <= x < (Trunc(x) + 1) as real && Trunc(-x) == -Trunc(x)
  {
  }

  /** The bill of a run: the store as it was left is stored, what it grew by is ingested,
      and requests and bytes are those of the counters if they saw any. */
  lemma RunIsBilled(c: Card, r: Run)
    requires Usable(c) && Sound(r)
    ensures var b, after := BillOf(c, UsageOf(r)), if r.store.Some? then r.store.value.1 else 0;
            b.storage * c.gbBytes == after as real * c.storage
    ensures UsageOf(r).measured <==> r.delta.Some? && TotalsOf(r.delta.value).anyTraffic
    ensures UsageOf(r).measured ==>
              var b, t := BillOf(c, UsageOf(r)), TotalsOf(r.delta.value);
              && b.ops == Some(Requests(c, t.puts, t.gets, t.lists, t.deletes)) && b.egress == None && b.workload.Some?
              && Transfer(c, UsageOf(r)) * c.gbBytes == t.putBytes as real * c.upload + t.getBytes as real * c.retrieval
              && (b.perGB.Some? <==> r.store.Some? && r.store.value.1 > r.store.value.0)
              && (b.perGB.Some? ==> b.perGB.value * (r.store.value.1 - r.store.value.0) as real == b.workload.value * c.gbBytes)
              && (b.perMTxns.Some? <==> r.transactions.Some? && r.transactions.value > 0)
              && (b.perMTxns.Some? ==> b.perMTxns.value * r.transactions.value as real == b.workload.value * 1000000.0)
              && (b.perMCommits.Some? <==> Commit(r) >= 1.0)
              && (b.perMCommits.Some? ==> b.perMCommits.value * Trunc(Commit(r)) as real == b.workload.value * 1000000.0)
  {
    hide UsageOf, Requests, Transfer, Egress, Work, Per, TotalsOf, Trunc, Commit;
    var u := UsageOf(r);
    RunReads(r);
    StorageIsByTheGB(c, u);
    if u.measured {
      assert BillOf(c, u).ops == Some(Requests(c, u.puts, u.gets, u.lists, u.deletes));
      WorkloadAndItsUnits(c, u);
      TransferIsByTheGB(c, u);
    }
    hide BillOf;
  }

  lemma RunReads(r: Run)
    requires Sound(r)
    ensures var u := UsageOf(r);
            && u.storageBytes == (if r.store.Some? then r.store.value.1 else 0) && !u.egress
            && u.ingestedBytes == (if r.store.Some? && r.store.value.1 > r.store.value.0 then r.store.value.1 - r.store.value.0 else 0)
            && u.txns == (if r.transactions.Some? then r.transactions.value else 0)
            && u.commits == (if Commit(r) >= 1.0 then Trunc(Commit(r)) else 0) && (u.commits > 0 <==> Commit(r) >= 1.0)
            && (u.measured <==> r.delta.Some? && TotalsOf(r.delta.value).anyTraffic)
            && (u.measured ==>
                  var t := TotalsOf(r.delta.value);
                  && u.puts == t.puts && u.gets == t.gets && u.lists == t.lists && u.deletes == t.deletes
                  && u.uploadBytes == t.putBytes && u.downloadBytes == t.getBytes)
  {
    hide TotalsOf;
    if Commit(r) > 0.0 { TruncIsWhole(Commit(r)); }
  }

  // ----- the file it wrote, read back

  /** A decoded result file, in which every number is a float. */
  datatype Json = Num(r: real) | Text(s: string) | Obj(m: map<string, Json>)

  function IntOf(v: Option<Json>): int {
    if v.Some? && v.value.Num? then Trunc(v.value.r) else 0
  }

  function Field(m: map<string, Json>, key: string): Option<Json> {
    if key in m then Some(m[key]) else None
  }

  /** An object under a key; a missing one and one of another kind are both none. */
  function MapOf(m: Option<map<string, Json>>, key: string): Option<map<string, Json>> {
    if m.Some? && key in m.value && m.value[key].Obj? then Some(m.value[key].m) else None
  }

  function Number(n: int): Json { Num(n as real) }

  function BlockJson(b: Block): Json {
    Obj(map["count" := Number(b.count), "bytes" := Number(b.bytes)])
  }

  function OpsJson(ops: map<string, Block>): map<string, Json> {
    map name | name in ops :: BlockJson(ops[name])
  }

  function DatabaseJson(d: map<string, real>): Json {
    Obj(map["database" := Obj(map k | k in d :: Num(d[k]))])
  }

  /** The parts of the written result that pricing reads. */
  function Written(r: Run, ops: map<string, Block>): map<string, Json> {
    (if r.store.Some? then
       map["store" := Obj(map["bytes_before" := Number(r.store.value.0), "bytes_after" := Number(r.store.value.1),
                              "bytes_delta" := Number(r.store.value.1 - r.store.value.0)])]
     else map[])
    + (if r.delta.Some? then map["store_ops" := Obj(map["ops" := Obj(OpsJson(ops))])] else map[])
    + (if r.transactions.Some? then map["transactions" := Number(r.transactions.value)] else map[])
    + (if r.database.Some? then map["pg_delta" := DatabaseJson(r.database.value)] else map[])
  }

  function KindOf(ops: map<string, Json>, name: string): (int, int) {
    var m := MapOf(Some(ops), name);
    if m.None? then (0, 0) else (IntOf(Field(m.value, "count")), IntOf(Field(m.value, "bytes")))
  }

  method RunUsageFromFile(r: map<string, Json>, egress: bool) returns (u: Usage, ok: bool)
    ensures (u, ok) == FileUsage(r, egress)
  {
    u := NO_USAGE.(egress := egress);
    var ops := MapOf(MapOf(Some(r), "store_ops"), "ops");
    if ops.None? {
      return u, false;
    }
    var (get, getBytes) := KindOf(ops.value, "get");
    var (rng, rngBytes) := KindOf(ops.value, "get_range");
    var (put, putBytes) := KindOf(ops.value, "put");
    var (cas, casBytes) := KindOf(ops.value, "put_if_match");
    var (del, _) := KindOf(ops.value, "delete");
    var (list, _) := KindOf(ops.value, "list");
    u := u.(gets := get + rng, downloadBytes := getBytes + rngBytes);
    u := u.(puts := put + cas, uploadBytes := putBytes + casBytes);
    u := u.(deletes := del, lists := list);
    u := u.(measured := u.gets + u.puts + u.deletes + u.lists > 0);
    var store := MapOf(Some(r), "store");
    if store.Some? {
      u := u.(storageBytes := IntOf(Field(store.value, "bytes_after")));
      var grew := IntOf(Field(store.value, "bytes_delta"));
      if grew > 0 {
        u := u.(ingestedBytes := grew);
      }
    }
    u := u.(txns := IntOf(Field(r, "transactions")));
    var db := MapOf(MapOf(Some(r), "pg_delta"), "database");
    if db.Some? {
      u := u.(commits := IntOf(Field(db.value, "xact_commit")));
    }
    return u, u.measured;
  }

  function FileUsage(r: map<string, Json>, egress: bool): (Usage, bool) {
    var ops := MapOf(MapOf(Some(r), "store_ops"), "ops");
    if ops.None? then (NO_USAGE.(egress := egress), false)
    else
      var gets := KindOf(ops.value, "get").0 + KindOf(ops.value, "get_range").0;
      var puts := KindOf(ops.value, "put").0 + KindOf(ops.value, "put_if_match").0;
      var deletes, lists := KindOf(ops.value, "delete").0, KindOf(ops.value, "list").0;
      var store := MapOf(Some(r), "store");
      var grew := if store.Some? then IntOf(Field(store.value, "bytes_delta")) else 0;
      var db := MapOf(MapOf(Some(r), "pg_delta"), "database");
      var measured := gets + puts + deletes + lists > 0;
      (Usage(if store.Some? then IntOf(Field(store.value, "bytes_after")) else 0, puts, gets, lists, deletes,
             KindOf(ops.value, "put").1 + KindOf(ops.value, "put_if_match").1,
             KindOf(ops.value, "get").1 + KindOf(ops.value, "get_range").1,
             measured, egress, IntOf(Field(r, "transactions")),
             if db.Some? then IntOf(Field(db.value, "xact_commit")) else 0,
             if grew > 0 then grew else 0),
       measured)
  }

  /** Whether egress is asked for changes nothing else in the usage, and a file without
      counters prices as nothing measured. */
  lemma FileKeepsEgress(r: map<string, Json>, egress: bool)
    ensures var a, b := FileUsage(r, false), FileUsage(r, egress);
            && b.0 == a.0.(egress := egress) && b.1 == a.1 && b.0.measured == b.1 && !a.0.egress
            && (b.1 <==> b.0.gets + b.0.puts + b.0.deletes + b.0.lists > 0)
    ensures (MapOf(MapOf(Some(r), "store_ops"), "ops").None? ==> FileUsage(r, egress) == (NO_USAGE.(egress := egress), false))
    ensures NO_USAGE == Usage(0, 0, 0, 0, 0, 0, 0, false, false, 0, 0, 0)
  {
    hide KindOf, IntOf, Field;
  }

  /** An entry that is missing or of another type counts as nothing. */
  lemma MissingIsNothing(m: map<string, Json>, key: string)
    ensures key !in m || !m[key].Num? ==> IntOf(Field(m, key)) == 0
    ensures key !in m || !m[key].Obj? ==> KindOf(m, key) == (0, 0)
    ensures key in m && m[key].Obj? ==>
              KindOf(m, key) == (IntOf(Field(m[key].m, "count")), IntOf(Field(m[key].m, "bytes")))
  {
  }
}
