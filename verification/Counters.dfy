/** zoustats/zoustats.go: the store's counter file as 830 slots, the difference of
    two snapshots, and its two readings, Report for the result file and Sum for
    the bill. */
module Counters {

  const KINDS: nat := 6
  const CLASSES: nat := 7
  const TIERS: nat := 4
  const PHASES: nat := 4
  const STEPS: nat := 7
  const CAUSES: nat := 3
  const RETRIES: nat := 4
  const PACKS: nat := 3
  const BUCKETS: nat := 32
  const HEADER: nat := 2
  const BUCKET_BASE: nat := HEADER + KINDS * CLASSES * 2
  const ERROR_BASE: nat := BUCKET_BASE + KINDS * BUCKETS
  const CONFLICT_SLOT: nat := ERROR_BASE + KINDS
  const TIER_BASE: nat := CONFLICT_SLOT + 1
  const PHASE_BASE: nat := TIER_BASE + TIERS * (2 + BUCKETS)
  const STEP_BASE: nat := PHASE_BASE + PHASES * (1 + BUCKETS)
  const CAUSE_BASE: nat := STEP_BASE + STEPS * (1 + BUCKETS)
  const GAP_BASE: nat := CAUSE_BASE + CAUSES
  const RETRY_BASE: nat := GAP_BASE + 1 + BUCKETS
  const PACK_BASE: nat := RETRY_BASE + RETRIES
  const SLOTS: nat := PACK_BASE + PACKS * 2

  predicate IsCounters(c: seq<nat>) { |c| == SLOTS }

  function CountSlot(kind: nat, class_: nat): nat { HEADER + (kind * CLASSES + class_) * 2 }

  /** The count slots and the byte slots beside them are all different and all
      inside the op section. */
  lemma SlotsApart(k: nat, a: nat, l: nat, b: nat)
    requires k < KINDS && l < KINDS && a < CLASSES && b < CLASSES
    ensures HEADER <= CountSlot(k, a) && CountSlot(k, a) + 1 < BUCKET_BASE
    ensures CountSlot(k, a) == CountSlot(l, b) <==> k == l && a == b
    ensures CountSlot(k, a) != CountSlot(l, b) + 1
  {
  }

  /** The file's layout, slot by slot: behind two words of header, kind by kind and class by
      class, a count and then its bytes; the conflict counter is slot 284 of 830. */
  lemma SlotHolds(slot: nat)
    ensures BUCKET_BASE == 86 && CONFLICT_SLOT == 284 && SLOTS == 830
    ensures 2 <= slot < 86 ==> slot == CountSlot((slot - 2) / 14, (slot - 2) % 14 / 2) + slot % 2
  {
  }

  datatype Result<T> = Ok(value: T) | Shrank(slot: nat)

  /** Slot by slot, or the first counter that went backwards. */
  method Diff(before: seq<nat>, after: seq<nat>) returns (r: Result<seq<nat>>)
    requires IsCounters(before) && IsCounters(after)
    ensures r.Ok? <==> forall i :: HEADER <= i < SLOTS ==> before[i] <= after[i]
    ensures r.Ok? ==> IsDiff(before, after, r.value)
    ensures r.Shrank? ==> HEADER <= r.slot < SLOTS && after[r.slot] < before[r.slot]
                          && forall i :: HEADER <= i < r.slot ==> before[i] <= after[i]
  {
    var d := after;
    for i := HEADER to SLOTS
      invariant |d| == SLOTS && d[0] == after[0] && d[1] == after[1]
      invariant forall j :: HEADER <= j < i ==> before[j] <= after[j] && d[j] == after[j] - before[j]
    {
      if after[i] < before[i] {
        return Shrank(i);
      }
      d := d[i := after[i] - before[i]];
    }
    return Ok(d);
  }

  /** What a snapshot difference is: the header of the later one, and how far
      every counter moved. */
  predicate IsDiff(before: seq<nat>, after: seq<nat>, d: seq<nat>) {
    && IsCounters(before) && IsCounters(after) && IsCounters(d) && d[0] == after[0] && d[1] == after[1]
    && forall i :: HEADER <= i < SLOTS ==> after[i] == before[i] + d[i]
  }

  /** Phases tile: if both halves of a run can be differenced so can the whole,
      and it is the two halves slot by slot. */
  lemma DiffsTile(a: seq<nat>, b: seq<nat>, c: seq<nat>, x: seq<nat>, y: seq<nat>)
    requires IsDiff(a, b, x) && IsDiff(b, c, y)
    ensures forall i :: HEADER <= i < SLOTS ==> a[i] <= c[i]
    ensures forall z :: IsDiff(a, c, z) ==> forall i :: HEADER <= i < SLOTS ==> z[i] == x[i] + y[i]
  {
    forall i | HEADER <= i < SLOTS ensures c[i] == a[i] + x[i] + y[i] {
      assert b[i] == a[i] + x[i];
      assert c[i] == b[i] + y[i];
    }
  }

  // ----- Sum

  /** The first `n` classes of one kind, at offset 0 for counts and 1 for bytes. */
  function KindSum(c: seq<nat>, kind: nat, off: nat, n: nat): nat
    requires IsCounters(c) && kind < KINDS && off <= 1 && n <= CLASSES
  {
    if n == 0 then 0
    else
      SlotsApart(kind, n - 1, kind, n - 1);
      KindSum(c, kind, off, n - 1) + c[CountSlot(kind, n - 1) + off]
  }

  function CountOf(c: seq<nat>, kind: nat): nat
    requires IsCounters(c) && kind < KINDS
  {
    KindSum(c, kind, 0, CLASSES)
  }

  function BytesOf(c: seq<nat>, kind: nat): nat
    requires IsCounters(c) && kind < KINDS
  {
    KindSum(c, kind, 1, CLASSES)
  }

  datatype Totals = Totals(puts: int, gets: int, lists: int, deletes: int, getBytes: int, putBytes: int,
                           conflicts: int, anyTraffic: bool)

  /** A range get is a get and a conditional put is a put. */
  function TotalsOf(c: seq<nat>): Totals
    requires IsCounters(c)
  {
    var gets, puts, deletes, lists := CountOf(c, 0) + CountOf(c, 1), CountOf(c, 2) + CountOf(c, 3), CountOf(c, 4), CountOf(c, 5);
    Totals(puts, gets, lists, deletes, BytesOf(c, 0) + BytesOf(c, 1), BytesOf(c, 2) + BytesOf(c, 3),
           c[CONFLICT_SLOT], gets + puts + deletes + lists > 0)
  }

  method KindCount(c: seq<nat>, kind: nat) returns (n: nat, b: nat)
    requires IsCounters(c) && kind < KINDS
    ensures n == CountOf(c, kind) && b == BytesOf(c, kind)
  {
    n, b := 0, 0;
    for class_ := 0 to CLASSES
      invariant n == KindSum(c, kind, 0, class_) && b == KindSum(c, kind, 1, class_)
    {
      SlotsApart(kind, class_, kind, class_);
      n := n + c[CountSlot(kind, class_)];
      b := b + c[CountSlot(kind, class_) + 1];
    }
  }

  method Sum(c: seq<nat>) returns (t: Totals)
    requires IsCounters(c)
    ensures t == TotalsOf(c)
  {
    var gn, gb := KindCount(c, 0);
    var rn, rb := KindCount(c, 1);
    var pn, pb := KindCount(c, 2);
    var un, ub := KindCount(c, 3);
    var dn, _ := KindCount(c, 4);
    var ln, _ := KindCount(c, 5);
    t := Totals(pn + un, gn + rn, ln, dn, gb + rb, pb + ub, c[CONFLICT_SLOT], gn + rn + (pn + un) + dn + ln > 0);
  }

  lemma {:induction false} KindSumTiles(x: seq<nat>, y: seq<nat>, z: seq<nat>, kind: nat, off: nat, n: nat)
    requires IsCounters(x) && IsCounters(y) && IsCounters(z) && kind < KINDS && off <= 1 && n <= CLASSES
    requires forall i :: HEADER <= i < SLOTS ==> z[i] == x[i] + y[i]
    ensures KindSum(z, kind, off, n) == KindSum(x, kind, off, n) + KindSum(y, kind, off, n)
  {
    if n > 0 {
      KindSumTiles(x, y, z, kind, off, n - 1);
      SlotsApart(kind, n - 1, kind, n - 1);
    }
  }

  /** The totals of two phases add up to those of the whole. */
  lemma TotalsTile(x: seq<nat>, y: seq<nat>, z: seq<nat>)
    requires IsCounters(x) && IsCounters(y) && IsCounters(z)
    requires forall i :: HEADER <= i < SLOTS ==> z[i] == x[i] + y[i]
    ensures var a, b, t := TotalsOf(x), TotalsOf(y), TotalsOf(z);
            && t.puts == a.puts + b.puts && t.gets == a.gets + b.gets && t.lists == a.lists + b.lists
            && t.deletes == a.deletes + b.deletes && t.getBytes == a.getBytes + b.getBytes
            && t.putBytes == a.putBytes + b.putBytes && t.conflicts == a.conflicts + b.conflicts
            && (t.anyTraffic <==> a.anyTraffic || b.anyTraffic)
  {
    forall kind, off: nat | 0 <= kind < KINDS && off <= 1
      ensures KindSum(z, kind, off, CLASSES) == KindSum(x, kind, off, CLASSES) + KindSum(y, kind, off, CLASSES)
    {
      KindSumTiles(x, y, z, kind, off, CLASSES);
    }
  }

  /** One slot moved: a sum moves with it if the slot is one of those it runs over. */
  lemma {:induction false} KindSumMoves(c: seq<nat>, kind: nat, class_: nat, off: nat, n: nat, k: nat, o: nat, m: nat)
    requires IsCounters(c) && kind < KINDS && class_ < CLASSES && off <= 1 && k < KINDS && o <= 1 && m <= CLASSES
    ensures CountSlot(kind, class_) + off < SLOTS
    ensures var at := CountSlot(kind, class_) + off;
            KindSum(c[at := c[at] + n], k, o, m) == KindSum(c, k, o, m) + (if k == kind && o == off && class_ < m then n else 0)
  {
    SlotsApart(kind, class_, kind, class_);
    if m > 0 {
      KindSumMoves(c, kind, class_, off, n, k, o, m - 1);
      SlotsApart(kind, class_, k, m - 1);
      SlotsApart(k, m - 1, kind, class_);
    }
  }

  lemma {:induction false} NoCounts(c: seq<nat>, kind: nat, off: nat, n: nat)
    requires IsCounters(c) && kind < KINDS && off <= 1 && n <= CLASSES
    requires forall i :: HEADER <= i < SLOTS ==> c[i] == 0
    ensures KindSum(c, kind, off, n) == 0
  {
    if n > 0 {
      NoCounts(c, kind, off, n - 1);
      SlotsApart(kind, n - 1, kind, n - 1);
    }
  }

  /** What one more operation adds to the totals, wherever in the file it is counted: slots
      are 14 to a kind, and kinds are get, range get, two kinds of put, delete and list. */
  lemma OneMoreOperation(c: seq<nat>, kind: nat, class_: nat, n: nat)
    requires IsCounters(c) && kind < KINDS && class_ < CLASSES
    ensures var at := 2 + 14 * kind + 2 * class_;
            var t, u, v := TotalsOf(c), TotalsOf(c[at := c[at] + n]), TotalsOf(c[at + 1 := c[at + 1] + n]);
            && u == t.(gets := t.gets + (if kind <= 1 then n else 0), puts := t.puts + (if kind == 2 || kind == 3 then n else 0),
                       deletes := t.deletes + (if kind == 4 then n else 0), lists := t.lists + (if kind == 5 then n else 0),
                       anyTraffic := t.anyTraffic || n > 0)
            && v == t.(getBytes := t.getBytes + (if kind <= 1 then n else 0),
                       putBytes := t.putBytes + (if kind == 2 || kind == 3 then n else 0))
  {
    var at := CountSlot(kind, class_);
    SlotsApart(kind, class_, kind, class_);
    assert at == 2 + 14 * kind + 2 * class_;
    EveryKindMoves(c, c[at := c[at] + n], kind, class_, 0, n);
    EveryKindMoves(c, c[at + 1 := c[at + 1] + n], kind, class_, 1, n);
    hide KindSum;
  }

  lemma EveryKindMoves(c: seq<nat>, d: seq<nat>, kind: nat, class_: nat, off: nat, n: nat)
    requires IsCounters(c) && kind < KINDS && class_ < CLASSES && off <= 1 && CountSlot(kind, class_) + off < SLOTS
    requires var at := CountSlot(kind, class_) + off; d == c[at := c[at] + n]
    ensures forall k, o: nat :: 0 <= k < KINDS && o <= 1 ==>
              KindSum(d, k, o, CLASSES) == KindSum(c, k, o, CLASSES) + (if k == kind && o == off then n else 0)
  {
    forall k, o: nat | 0 <= k < KINDS && o <= 1
      ensures KindSum(d, k, o, CLASSES) == KindSum(c, k, o, CLASSES) + (if k == kind && o == off then n else 0)
    {
      KindSumMoves(c, kind, class_, off, n, k, o, CLASSES);
    }
  }

  /** Counters that never moved total nothing. */
  lemma NothingCounted(c: seq<nat>)
    requires IsCounters(c) && forall i :: HEADER <= i < SLOTS ==> c[i] == 0
    ensures TotalsOf(c) == Totals(0, 0, 0, 0, 0, 0, 0, false)
  {
    forall kind, off: nat | 0 <= kind < KINDS && off <= 1 ensures KindSum(c, kind, off, CLASSES) == 0 {
      NoCounts(c, kind, off, CLASSES);
    }
  }

  // ----- Report

  /** The part of Report the bill is rebuilt from: per op kind, the classes that
      saw traffic. */
  datatype Block = Block(count: nat, bytes: nat, byClass: map<nat, (nat, nat)>)

  /** Bytes of the classes whose count is zero, which Report leaves out. */
  function SilentBytes(c: seq<nat>, kind: nat, n: nat): nat
    requires IsCounters(c) && kind < KINDS && n <= CLASSES
  {
    if n == 0 then 0
    else
      SlotsApart(kind, n - 1, kind, n - 1);
      SilentBytes(c, kind, n - 1)
      + (if c[CountSlot(kind, n - 1)] == 0 then c[CountSlot(kind, n - 1) + 1] else 0)
  }

  function OpName(kind: nat): string
    requires kind < KINDS
  {
    ["get", "get_range", "put_if_match", "put", "delete", "list"][kind]
  }

  lemma OpNamesDiffer(a: nat, b: nat)
    requires a < KINDS && b < KINDS && OpName(a) == OpName(b)
    ensures a == b
  {
    assert |OpName(0)| == 3 && |OpName(1)| == 9 && |OpName(2)| == 12 && |OpName(3)| == 3 && |OpName(4)| == 6 && |OpName(5)| == 4;
    assert OpName(0)[0] == 'g' && OpName(3)[0] == 'p';
  }

  /** One kind's block, over its classes. */
  method KindBlock(c: seq<nat>, kind: nat) returns (b: Block)
    requires IsCounters(c) && kind < KINDS
    ensures b.count == CountOf(c, kind)
    ensures b.bytes + SilentBytes(c, kind, CLASSES) == BytesOf(c, kind)
    ensures forall k: nat :: k in b.byClass <==> k < CLASSES && c[CountSlot(kind, k)] != 0
    ensures forall k: nat :: k in b.byClass ==> b.byClass[k] == (c[CountSlot(kind, k)], c[CountSlot(kind, k) + 1])
  {
    b := Block(0, 0, map[]);
    for class_ := 0 to CLASSES
      invariant b.count == KindSum(c, kind, 0, class_)
      invariant b.bytes + SilentBytes(c, kind, class_) == KindSum(c, kind, 1, class_)
      invariant forall k: nat :: k in b.byClass <==> k < class_ && c[CountSlot(kind, k)] != 0
      invariant forall k: nat :: k in b.byClass ==> b.byClass[k] == (c[CountSlot(kind, k)], c[CountSlot(kind, k) + 1])
    {
      SlotsApart(kind, class_, kind, class_);
      var n := c[CountSlot(kind, class_)];
      if n != 0 {
        var y := c[CountSlot(kind, class_) + 1];
        b := Block(b.count + n, b.bytes + y, b.byClass[class_ := (n, y)]);
      }
    }
  }

  /** What a report says of one kind: a block if it saw traffic. */
  ghost predicate ReportsKind(c: seq<nat>, ops: map<string, Block>, kind: nat)
    requires IsCounters(c) && kind < KINDS
  {
    && (OpName(kind) in ops <==> CountOf(c, kind) != 0)
    && (OpName(kind) in ops ==>
          && ops[OpName(kind)].count == CountOf(c, kind)
          && ops[OpName(kind)].bytes + SilentBytes(c, kind, CLASSES) == BytesOf(c, kind))
  }

  ghost predicate Reports(c: seq<nat>, ops: map<string, Block>) {
    IsCounters(c) && forall kind: nat :: kind < KINDS ==> ReportsKind(c, ops, kind)
  }

  method Report(c: seq<nat>) returns (ops: map<string, Block>)
    requires IsCounters(c)
    ensures Reports(c, ops) && forall name :: name in ops ==> exists k: nat :: k < KINDS && name == OpName(k)
  {
    ops := map[];
    for kind := 0 to KINDS
      invariant forall k: nat :: k < kind ==> ReportsKind(c, ops, k)
      invariant forall name :: name in ops ==> exists k: nat :: k < kind && name == OpName(k)
    {
      var b := KindBlock(c, kind);
      ghost var was := ops;
      if b.count != 0 {
        ops := ops[OpName(kind) := b];
      }
      if OpName(kind) in was {
        var j: nat :| j < kind && OpName(kind) == OpName(j);
        OpNamesDiffer(j, kind);
      }
      forall k: nat | k < kind ensures ReportsKind(c, ops, k) {
        assert ReportsKind(c, was, k);
        if OpName(k) == OpName(kind) { OpNamesDiffer(k, kind); }
      }
    }
  }

  /** A kind whose every class is silent has all of its bytes left out. */
  lemma {:induction false} SilentKind(c: seq<nat>, kind: nat, n: nat)
    requires IsCounters(c) && kind < KINDS && n <= CLASSES && KindSum(c, kind, 0, n) == 0
    ensures SilentBytes(c, kind, n) == KindSum(c, kind, 1, n)
  {
    if n > 0 {
      SilentKind(c, kind, n - 1);
      SlotsApart(kind, n - 1, kind, n - 1);
    }
  }
}
