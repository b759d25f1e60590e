/** The acked-write ledger of sustain/sustain.go, and the writer, the kills and the
    check that work on it in cmd/zoubench/sustain.go. */
module Ledger {
  import opened Options
  import opened Sums

  function Last(s: seq<int>): int { if s == [] then 0 else s[|s| - 1] }

  class Ledger {
    var next: int
    var acked: seq<int>

    constructor ()
      ensures next == 1 && acked == []
    {
      next, acked := 1, [];
    }

    /** Every id is handed out once. */
    method Next() returns (id: int)
      modifies this`next
      ensures id == old(next) && next == old(next) + 1
    {
      id := next;
      next := next + 1;
    }

    method Ack(id: int)
      modifies this`acked
      ensures acked == old(acked) + [id]
    {
      acked := acked + [id];
    }

    /** The last id acked is the highest, because ids are only handed out upwards. */
    method MaxAcked() returns (m: int)
      requires Increasing(acked)
      ensures acked == [] ==> m == 0
      ensures acked != [] ==> m in acked && forall id :: id in acked ==> id <= m
    {
      m := if |acked| == 0 then 0 else acked[|acked| - 1];
      forall id | id in acked ensures id <= m {
        var i :| 0 <= i < |acked| && acked[i] == id;
      }
    }

    /** The acked ids in order, cut into pieces of at most `size`. */
    method Chunks(size: nat) returns (out: seq<seq<int>>)
      requires size > 0
      ensures Flatten(out) == acked
      ensures forall i :: 0 <= i < |out| ==> 0 < |out[i]| <= size
      ensures forall i :: 0 <= i < |out| - 1 ==> |out[i]| == size
    {
      out := [];
      var lo := 0;
      while lo < |acked|
        invariant 0 <= lo && (lo > |acked| ==> Flatten(out) == acked)
        invariant lo <= |acked| ==> Flatten(out) == acked[..lo]
        invariant forall i :: 0 <= i < |out| ==> 0 < |out[i]| <= size
        invariant lo <= |acked| ==> forall i :: 0 <= i < |out| ==> |out[i]| == size
        invariant forall i :: 0 <= i < |out| - 1 ==> |out[i]| == size
      {
        var hi := if lo + size < |acked| then lo + size else |acked|;
        assert acked[..hi] == acked[..lo] + acked[lo..hi];
        assert (out + [acked[lo..hi]])[..|out|] == out;
        out := out + [acked[lo..hi]];
        assert hi == |acked| ==> acked[..hi] == acked;
        lo := lo + size;
      }
      assert lo == |acked| ==> acked[..lo] == acked;
    }
  }

  // ----- the writer

  /** One tick of the writer: whether a dial it needs succeeds, and whether the
      insert it then sends is acknowledged. */
  datatype Tick = Tick(dials: bool, acks: bool)

  /** The ids a series of ticks gets acknowledged, from `next` on. */
  function AckedIds(ticks: seq<Tick>, connected: bool, next: int): seq<int> {
    if ticks == [] then []
    else if !connected && !ticks[0].dials then AckedIds(ticks[1..], false, next)
    else (if ticks[0].acks then [next] else []) + AckedIds(ticks[1..], ticks[0].acks, next + 1)
  }

  function Tried(ticks: seq<Tick>, connected: bool): nat {
    if ticks == [] then 0
    else if !connected && !ticks[0].dials then Tried(ticks[1..], false)
    else 1 + Tried(ticks[1..], ticks[0].acks)
  }

  /** Whether the writer still has its connection after some ticks. */
  function ConnectedAfter(ticks: seq<Tick>, connected: bool): bool {
    if ticks == [] then connected
    else ConnectedAfter(ticks[1..], (connected || ticks[0].dials) && ticks[0].acks)
  }

  /** One tick: without a connection it dials, and only then an id is used up; the id is
      acked and the connection kept if the insert answers. */
  lemma OneTick(t: Tick, connected: bool, next: int)
    ensures var sent := connected || t.dials;
            && AckedIds([t], connected, next) == (if sent && t.acks then [next] else [])
            && Tried([t], connected) == (if sent then 1 else 0) && ConnectedAfter([t], connected) == (sent && t.acks)
  {
    assert [t][1..] == [];
    assert AckedIds([], t.acks, next + 1) == [] && AckedIds([], false, next) == [];
  }

  lemma FirstTick(ticks: seq<Tick>, connected: bool, next: int)
    requires ticks != []
    ensures var sent := connected || ticks[0].dials;
            var on, from := sent && ticks[0].acks, if sent then next + 1 else next;
            && AckedIds(ticks, connected, next) == (if on then [next] else []) + AckedIds(ticks[1..], on, from)
            && Tried(ticks, connected) == (if sent then 1 else 0) + Tried(ticks[1..], on)
            && ConnectedAfter(ticks, connected) == ConnectedAfter(ticks[1..], on)
  {
    assert forall ids: seq<int> :: [] + ids == ids;
  }

  /** And one series of ticks after another. */
  lemma {:induction false} TicksConcat(a: seq<Tick>, b: seq<Tick>, connected: bool, next: int)
    ensures var on, from := ConnectedAfter(a, connected), next + Tried(a, connected);
            && AckedIds(a + b, connected, next) == AckedIds(a, connected, next) + AckedIds(b, on, from)
            && Tried(a + b, connected) == Tried(a, connected) + Tried(b, on)
            && ConnectedAfter(a + b, connected) == ConnectedAfter(b, on)
    decreases |a|
  {
    if a == [] {
      assert a + b == b;
      assert [] + AckedIds(b, connected, next) == AckedIds(b, connected, next);
    } else {
      hide AckedIds, Tried, ConnectedAfter;
      var sent := connected || a[0].dials;
      var on, from := sent && a[0].acks, if sent then next + 1 else next;
      assert (a + b)[0] == a[0] && (a + b)[1..] == a[1..] + b;
      FirstTick(a, connected, next);
      FirstTick(a + b, connected, next);
      TicksConcat(a[1..], b, on, from);
      Regrouped(if on then [next] else [], AckedIds(a[1..], on, from),
                AckedIds(b, ConnectedAfter(a, connected), next + Tried(a, connected)));
    }
  }

  lemma Regrouped(x: seq<int>, y: seq<int>, z: seq<int>)
    ensures x + (y + z) == x + y + z
  {
  }

  lemma AppendHigher(s: seq<int>, x: int)
    requires Increasing(s) && forall y :: y in s ==> y < x
    ensures Increasing(s + [x])
  {
    forall i | 0 <= i < |s| ensures s[i] < x { assert s[i] in s; }
  }

  /** ledgerWriter: an id is never tried twice, and one whose insert did not
      answer is skipped, so what is acked keeps rising. */
  method WriteLedger(led: Ledger, ticks: seq<Tick>)
    requires Increasing(led.acked) && forall id :: id in led.acked ==> id < led.next
    modifies led
    ensures led.acked == old(led.acked) + AckedIds(ticks, false, old(led.next))
    ensures led.next == old(led.next) + Tried(ticks, false)
    ensures Increasing(led.acked) && forall id :: id in led.acked ==> id < led.next
  {
    var connected := false;
    var i := 0;
    ghost var all := AckedIds(ticks, false, led.next);
    ghost var done: seq<int> := [];
    while i < |ticks|
      invariant 0 <= i <= |ticks|
      invariant led.acked == old(led.acked) + done && all == done + AckedIds(ticks[i..], connected, led.next)
      invariant led.next + Tried(ticks[i..], connected) == old(led.next) + Tried(ticks, false)
      invariant Increasing(led.acked) && forall id :: id in led.acked ==> id < led.next
    {
      var t := ticks[i];
      ghost var now := AckedIds(ticks[i..], connected, led.next);
      assert ticks[i..][0] == t && ticks[i..][1..] == ticks[i + 1..];
      i := i + 1;
      if !connected {
        if !t.dials { continue; }
        connected := true;
      }
      var id := led.Next();
      if !t.acks {
        connected := false;
        assert now == [] + AckedIds(ticks[i..], false, led.next);
        continue;
      }
      AppendHigher(led.acked, id);
      led.Ack(id);
      assert now == [id] + AckedIds(ticks[i..], true, led.next);
      done := done + [id];
    }
  }

  // ----- the check

  /** The first attempt that answered, if one did, and what it read. */
  function FirstAnswer<T>(attempts: seq<Option<T>>): Option<T> {
    if attempts == [] then None
    else if attempts[0].Some? then attempts[0] else FirstAnswer(attempts[1..])
  }

  const ATTEMPTS: nat := 5

  function Tries<T>(attempts: seq<Option<T>>): seq<Option<T>> {
    if |attempts| > ATTEMPTS then attempts[..ATTEMPTS] else attempts
  }

  /** soakQuery: up to five attempts, the first answer wins. */
  method SoakQuery<T>(attempts: seq<Option<T>>) returns (got: Option<T>)
    ensures got == FirstAnswer(Tries(attempts))
  {
    var tries := Tries(attempts);
    var i := 0;
    while i < |tries|
      invariant 0 <= i <= |tries|
      invariant FirstAnswer(tries) == FirstAnswer(tries[i..])
    {
      if tries[i].Some? {
        return tries[i];
      }
      i := i + 1;
    }
    return None;
  }

  /** Five attempts and no more: the fifth answer counts if none came before it, a sixth
      does not. */
  lemma FifthIsTheLast<T>(answer: T, more: seq<Option<T>>)
    ensures FirstAnswer(Tries([None, None, None, None, Some(answer)] + more)) == Some(answer)
    ensures FirstAnswer(Tries([None, None, None, None, None] + more)) == None
  {
    var none: seq<Option<T>> := [None, None, None, None];
    assert Tries(none + [Some(answer)] + more) == none + [Some(answer)];
    assert Tries(none + [None] + more) == none + [None];
    NoAnswerYet(none, [Some(answer)]);
    NoAnswerYet(none, [None]);
    assert [Some(answer)][0].Some?;
    assert FirstAnswer<T>([]) == None;
    assert none + [Some(answer)] + more == [None, None, None, None, Some(answer)] + more;
    assert none + [None] + more == [None, None, None, None, None] + more;
  }

  lemma {:induction false} NoAnswerYet<T>(none: seq<Option<T>>, rest: seq<Option<T>>)
    requires forall i :: 0 <= i < |none| ==> none[i].None?
    ensures FirstAnswer(none + rest) == FirstAnswer(rest)
  {
    if none == [] {
      assert none + rest == rest;
    } else {
      assert (none + rest)[1..] == none[1..] + rest;
      NoAnswerYet(none[1..], rest);
    }
  }

  /** Rows of the keyed table that the list names. */
  function CountIn(chunk: seq<int>, table: set<int>): nat {
    |set id | id in table && id in chunk|
  }

  /** A chunk whose query answered from a table holding every id of it. */
  ghost predicate Passes(chunk: seq<int>, attempts: seq<Option<set<int>>>) {
    var a := FirstAnswer(Tries(attempts));
    a.Some? && forall id :: id in chunk ==> id in a.value
  }

  ghost predicate Unanswered(attempts: seq<Option<set<int>>>) {
    FirstAnswer(Tries(attempts)).None?
  }

  /** Counting rows of a keyed table finds as many as the list is long exactly
      when every id of an increasing list is there. */
  lemma CountIsMembership(chunk: seq<int>, table: set<int>)
    requires Increasing(chunk)
    ensures CountIn(chunk, table) == |chunk| <==> forall id :: id in chunk ==> id in table
  {
    var found, all := set id | id in table && id in chunk, set id | id in chunk;
    DistinctSize(chunk);
    assert found <= all;
    if |found| == |chunk| {
      SameSize(found, all);
      forall id | id in chunk ensures id in table { assert id in all; }
    }
    if forall id :: id in chunk ==> id in table { assert found == all; }
  }

  lemma {:induction false} DistinctSize(s: seq<int>)
    requires Increasing(s)
    ensures |set x | x in s| == |s|
  {
    if s == [] {
      assert (set x | x in s) == {};
    } else {
      var init, x := s[..|s| - 1], s[|s| - 1];
      DistinctSize(init);
      assert s == init + [x];
      assert (set y | y in s) == (set y | y in init) + {x};
    }
  }

  lemma {:induction false} ChunkIncreasing(chunks: seq<seq<int>>, i: nat)
    requires i < |chunks| && Increasing(Flatten(chunks))
    ensures Increasing(chunks[i])
  {
    var n := |chunks| - 1;
    var init := Flatten(chunks[..n]);
    assert Flatten(chunks) == init + chunks[n];
    if i == n {
      forall a, b | 0 <= a < b < |chunks[n]| ensures chunks[n][a] < chunks[n][b] {
        assert Flatten(chunks)[|init| + a] < Flatten(chunks)[|init| + b];
      }
    } else {
      forall a, b | 0 <= a < b < |init| ensures init[a] < init[b] {
        assert Flatten(chunks)[a] == init[a] && Flatten(chunks)[b] == init[b];
      }
      ChunkIncreasing(chunks[..n], i);
    }
  }

  /** verifyLedger. `seen[i]` is what the attempts of chunk i's query met; the
      table may differ from one attempt to the next. It succeeds exactly when
      every chunk's query answered from a table with all of the chunk in it, and
      reports an error exactly when a query went unanswered before any chunk
      came back short. */
  method VerifyLedger(led: Ledger, size: nat, seen: seq<seq<Option<set<int>>>>)
    returns (ok: bool, failed: bool, ghost chunks: seq<seq<int>>)
    requires size > 0 && Increasing(led.acked) && |seen| >= |led.acked|
    ensures Flatten(chunks) == led.acked && |chunks| <= |seen|
    ensures ok <==> forall i :: 0 <= i < |chunks| ==> Passes(chunks[i], seen[i])
    ensures failed <==>
            exists i :: 0 <= i < |chunks| && Unanswered(seen[i]) && forall j :: 0 <= j < i ==> Passes(chunks[j], seen[j])
    ensures !(ok && failed)
  {
    var pieces := led.Chunks(size);
    chunks := pieces;
    FewChunks(pieces);
    for i := 0 to |pieces|
      invariant forall j :: 0 <= j < i ==> Passes(pieces[j], seen[j])
    {
      var got := SoakQuery(seen[i]);
      ChunkIncreasing(pieces, i);
      if got.None? {
        return false, true, pieces;
      }
      CountIsMembership(pieces[i], got.value);
      if CountIn(pieces[i], got.value) != |pieces[i]| {
        assert !Passes(pieces[i], seen[i]);
        return false, false, pieces;
      }
    }
    return true, false, pieces;
  }

  lemma {:induction false} FewChunks(chunks: seq<seq<int>>)
    requires forall i :: 0 <= i < |chunks| ==> 0 < |chunks[i]|
    ensures |chunks| <= |Flatten(chunks)|
  {
    if chunks != [] { FewChunks(chunks[..|chunks| - 1]); }
  }

  lemma {:induction false} PieceInConcat(chunks: seq<seq<int>>, i: nat, id: int)
    requires i < |chunks| && id in chunks[i]
    ensures id in Flatten(chunks)
  {
    if i < |chunks| - 1 { PieceInConcat(chunks[..|chunks| - 1], i, id); }
  }

  lemma {:induction false} ConcatFromPiece(chunks: seq<seq<int>>, id: int) returns (i: nat)
    requires id in Flatten(chunks)
    ensures i < |chunks| && id in chunks[i]
  {
    var n := |chunks| - 1;
    if id in chunks[n] { i := n; } else { i := ConcatFromPiece(chunks[..n], id); }
  }

  /** Against one table that every query reads, success is exactly that every
      acked id is in it. */
  lemma VerifyIsMembership(chunks: seq<seq<int>>, seen: seq<seq<Option<set<int>>>>, table: set<int>)
    requires |chunks| <= |seen|
    requires forall i :: 0 <= i < |chunks| ==> FirstAnswer(Tries(seen[i])) == Some(table)
    ensures (forall i :: 0 <= i < |chunks| ==> Passes(chunks[i], seen[i])) <==>
            (forall id :: id in Flatten(chunks) ==> id in table)
  {
    if forall i :: 0 <= i < |chunks| ==> Passes(chunks[i], seen[i]) {
      forall id | id in Flatten(chunks) ensures id in table {
        var i := ConcatFromPiece(chunks, id);
        assert Passes(chunks[i], seen[i]);
      }
    } else {
      var i :| 0 <= i < |chunks| && !Passes(chunks[i], seen[i]);
      var id :| id in chunks[i] && id !in table;
      PieceInConcat(chunks, i, id);
    }
  }

  // ----- the soak

  /** The writer's outstanding insert. A kill dooms one that has not committed. */
  datatype Insert = Nothing | Sent(id: int) | Doomed | Done(id: int)

  /** `stray` are inserts whose connection is gone and which the server may yet commit. */
  datatype Soak = Soak(table: set<int>, next: int, acked: seq<int>, connected: bool, pending: Insert, stray: set<int>)

  datatype Step =
    | Dial
    | Attempt
    | Commit
    | CommitStray(id: int)
    | AckArrives
    | Break
    | Kill
    | Lose(ids: set<int>)

  const START: Soak := Soak({}, 1, [], false, Nothing, {})

  predicate Enabled(s: Soak, step: Step) {
    match step
    case Dial => !s.connected
    case Attempt => s.connected && s.pending.Nothing?
    // The primary key refuses an id that is already there.
    case Commit => s.pending.Sent? && s.pending.id !in s.table
    case CommitStray(id) => id in s.stray && id !in s.table
    case AckArrives => s.connected && s.pending.Done?
    case Break => s.connected
    case Kill => true
    case Lose(_) => true
  }

  function Do(s: Soak, step: Step): Soak
    requires Enabled(s, step)
  {
    match step
    case Dial => s.(connected := true)
    case Attempt => s.(pending := Sent(s.next), next := s.next + 1)
    case Commit => s.(table := s.table + {s.pending.id}, pending := Done(s.pending.id))
    case CommitStray(id) => s.(table := s.table + {id}, stray := s.stray - {id})
    case AckArrives => s.(acked := s.acked + [s.pending.id], pending := Nothing)
    case Break => s.(connected := false, pending := Nothing,
                     stray := if s.pending.Sent? then s.stray + {s.pending.id} else s.stray)
    case Kill => s.(pending := if s.pending.Sent? then Doomed else s.pending, stray := {})
    case Lose(ids) => s.(table := s.table - ids)
  }

  ghost predicate Run(s: Soak, steps: seq<Step>, t: Soak)
    decreases |steps|
  {
    if steps == [] then t == s else Enabled(s, steps[0]) && Run(Do(s, steps[0]), steps[1..], t)
  }

  /** The server's promise: a committed row survives every kill. */
  predicate Durable(steps: seq<Step>) {
    forall i :: 0 <= i < |steps| ==> !steps[i].Lose?
  }

  ghost predicate Inv(s: Soak) {
    && Increasing(s.acked) && (forall id :: id in s.acked ==> 1 <= id < s.next)
    && (forall id :: id in s.table || id in s.stray ==> 1 <= id < s.next)
    && s.next >= 1
    && (s.pending.Sent? ==>
          1 <= s.pending.id < s.next && s.pending.id !in s.table && s.pending.id !in s.stray && Last(s.acked) < s.pending.id)
    && (s.pending.Done? ==> 1 <= s.pending.id < s.next && Last(s.acked) < s.pending.id)
    && (!s.connected ==> s.pending.Nothing?)
  }

  /** Every acked row, and one whose ack is on its way, is in the table. */
  ghost predicate Kept(s: Soak) {
    && (forall id :: id in s.acked ==> id in s.table)
    && (s.pending.Done? ==> s.pending.id in s.table)
  }

  lemma StepInv(s: Soak, step: Step)
    requires Inv(s) && Enabled(s, step)
    ensures Inv(Do(s, step))
    ensures Kept(s) && !step.Lose? ==> Kept(Do(s, step)) && s.table <= Do(s, step).table
    ensures s.acked <= Do(s, step).acked
  {
    var t := Do(s, step);
    if s.acked != [] { assert Last(s.acked) in s.acked; }
  }

  /** Over every run, whatever is lost or killed: acked ids are strictly
      increasing, every id was handed out once, and the insert outstanding never
      meets its own id in the table. */
  lemma {:induction false} RunInv(s: Soak, steps: seq<Step>, t: Soak)
    requires Inv(s) && Run(s, steps, t)
    ensures Inv(t) && s.acked <= t.acked
    ensures Kept(s) && Durable(steps) ==> Kept(t) && s.table <= t.table
    decreases |steps|
  {
    if steps != [] {
      StepInv(s, steps[0]);
      var m := Do(s, steps[0]);
      RunInv(m, steps[1..], t);
      if Durable(steps) {
        assert !steps[0].Lose?;
        forall i | 0 <= i < |steps[1..]| ensures !steps[1..][i].Lose? {
          assert steps[1..][i] == steps[i + 1];
        }
      }
    }
  }

  /** The shortest run that acknowledges anything acknowledges the first id. */
  lemma FirstWrite()
    ensures var steps, t := [Dial, Attempt, Commit, AckArrives], Soak({1}, 2, [1], true, Nothing, {});
            Run(START, steps, t) && Durable(steps)
  {
    var s1 := Do(START, Dial);
    var s2 := Do(s1, Attempt);
    var s3 := Do(s2, Commit);
    var t := Do(s3, AckArrives);
    assert [] + [1] == [1];
    assert Run(t, [], t) && [AckArrives][1..] == [];
    assert [Commit, AckArrives][1..] == [AckArrives];
    assert [Attempt, Commit, AckArrives][1..] == [Commit, AckArrives];
    assert [Dial, Attempt, Commit, AckArrives][1..] == [Attempt, Commit, AckArrives];
  }

  /** If committed rows survive, a check started after any run finds every acked
      id in every table it can read from then on: it never cries wolf. */
  lemma DurableRunsVerify(steps: seq<Step>, s: Soak, more: seq<Step>, t: Soak)
    requires Run(START, steps, s) && Durable(steps) && Run(s, more, t) && Durable(more)
    ensures Increasing(s.acked) && forall id :: id in s.acked ==> id in t.table
  {
    RunInv(START, steps, s);
    RunInv(s, more, t);
  }
}
