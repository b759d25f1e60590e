/** The drill loop of cmd/zoubench/sustain.go: after every kill the ledger and the
    balance are checked, and what fails is counted as a violation. */
module Drills {
  import opened Options
  import opened Sums
  import L = Ledger
  import T = Tpcb
  import B = TpcbBalance

  /** What one drill's checks met: the answers to each chunk's query, and to the
      balance query, as the tables they were read from. */
  datatype Check = Check(seen: seq<seq<Option<set<int>>>>, balances: seq<Option<T.World>>)

  datatype Drill = Drill(ledgerOk: bool, balanceOk: Option<bool>, checkFailed: bool)

  predicate Answered<A>(attempts: seq<Option<A>>) {
    L.FirstAnswer(L.Tries(attempts)).Some?
  }

  /** verifyBalance: what the query found, and whether it failed to answer. */
  method VerifyBalance(scale: nat, attempts: seq<Option<T.World>>) returns (ok: bool, failed: bool)
    ensures ok <==> Balanced(scale, attempts)
    ensures failed <==> !Answered(attempts)
    ensures !(ok && failed)
  {
    var got := L.SoakQuery(attempts);
    if got.None? {
      return false, true;
    }
    return T.BalanceHolds(got.value, scale), false;
  }

  predicate Balanced(scale: nat, attempts: seq<Option<T.World>>) {
    var a := L.FirstAnswer(L.Tries(attempts));
    a.Some? && T.BalanceHolds(a.value, scale)
  }

  ghost predicate Kept(chunks: seq<seq<int>>, c: Check) {
    |chunks| <= |c.seen| && forall i :: 0 <= i < |chunks| ==> L.Passes(chunks[i], c.seen[i])
  }

  /** A chunk's query went unanswered before any chunk came back short. */
  ghost predicate Unreadable(chunks: seq<seq<int>>, c: Check) {
    && |chunks| <= |c.seen|
    && exists i :: 0 <= i < |chunks| && L.Unanswered(c.seen[i]) && forall j :: 0 <= j < i ==> L.Passes(chunks[j], c.seen[j])
  }

  function Violations(drills: seq<Drill>): nat {
    if drills == [] then 0
    else
      var d := drills[|drills| - 1];
      Violations(drills[..|drills| - 1]) + (if d.ledgerOk then 0 else 1) + (if d.balanceOk == Some(false) then 1 else 0)
  }

  lemma ViolationsSnoc(drills: seq<Drill>, d: Drill)
    ensures (drills + [d])[..|drills|] == drills
    ensures Violations(drills + [d]) ==
            Violations(drills) + (if d.ledgerOk then 0 else 1) + (if d.balanceOk == Some(false) then 1 else 0)
  {
  }

  class Soak {
    const led: L.Ledger
    const tpcb: bool
    const scale: nat
    var drills: seq<Drill>
    var violations: nat

    ghost predicate Valid()
      reads this, led
    {
      violations == Violations(drills) && Increasing(led.acked)
    }

    constructor (led: L.Ledger, tpcb: bool, scale: nat)
      requires Increasing(led.acked)
      ensures Valid() && this.led == led && this.tpcb == tpcb && this.scale == scale && drills == []
    {
      this.led, this.tpcb, this.scale, drills, violations := led, tpcb, scale, [], 0;
    }

    /** The checks after one drill. */
    method AfterDrill(size: nat, c: Check) returns (ghost chunks: seq<seq<int>>)
      requires Valid() && size > 0 && |c.seen| >= |led.acked|
      modifies this
      ensures Valid() && Flatten(chunks) == led.acked
      ensures |drills| == |old(drills)| + 1 && drills[..|old(drills)|] == old(drills)
      ensures var d := drills[|old(drills)|];
              && (d.ledgerOk <==> Kept(chunks, c))
              && d.balanceOk == (if tpcb then Some(Balanced(scale, c.balances)) else None)
              && (d.checkFailed <==> Unreadable(chunks, c) || (tpcb && !Answered(c.balances)))
    {
      hide Violations, T.BalanceHolds, Flatten, L.Passes, L.Unanswered, Balanced, Answered;
      var ledgerOk, checkErr;
      ledgerOk, checkErr, chunks := L.VerifyLedger(led, size, c.seen);
      var balanceOk: Option<bool> := None;
      ghost var before := violations;
      if !ledgerOk {
        violations := violations + 1;
      }
      if tpcb {
        var ok, err := VerifyBalance(scale, c.balances);
        balanceOk := Some(ok);
        if !checkErr { checkErr := err; }
        if !ok {
          violations := violations + 1;
        }
      }
      ViolationsSnoc(drills, Drill(ledgerOk, balanceOk, checkErr));
      drills := drills + [Drill(ledgerOk, balanceOk, checkErr)];
    }
  }

  /** A check that could not run is a violation like one that came back broken. */
  lemma UnreadableIsAViolation(chunks: seq<seq<int>>, c: Check, scale: nat)
    ensures Unreadable(chunks, c) ==> !Kept(chunks, c)
    ensures !Answered(c.balances) ==> !Balanced(scale, c.balances)
  {
  }

  /** A soak reports no violation if and only if every check of every drill held. */
  lemma {:induction false} NoViolationIff(drills: seq<Drill>)
    ensures Violations(drills) == 0 <==> forall d :: d in drills ==> d.ledgerOk && d.balanceOk != Some(false)
  {
    if drills != [] {
      var n := |drills| - 1;
      NoViolationIff(drills[..n]);
      assert drills == drills[..n] + [drills[n]];
    }
  }

  // ----- what a violation means

  /** A query answered from the table at some later moment of a run in which committed
      rows survive. */
  ghost predicate ReadsLater(s: L.Soak, attempts: seq<Option<set<int>>>) {
    && Answered(attempts)
    && exists more, t :: L.Run(s, more, t) && L.Durable(more) && t.table == L.FirstAnswer(L.Tries(attempts)).value
  }

  /** A server that keeps what it commits is never accused: whatever was killed, and
      whatever acknowledgements were lost, checks that get answers hold. */
  lemma HonestServerPasses(steps: seq<L.Step>, s: L.Soak, chunks: seq<seq<int>>, c: Check,
                           scale: nat, w: T.World, txns: seq<T.Step>, v: T.World)
    requires L.Run(L.START, steps, s) && L.Durable(steps) && Flatten(chunks) == s.acked && |chunks| <= |c.seen|
    requires forall i :: 0 <= i < |chunks| ==> ReadsLater(s, c.seen[i])
    requires T.Fresh(w, scale) && T.Run(scale, w, txns, v) && L.FirstAnswer(L.Tries(c.balances)) == Some(v)
    ensures Kept(chunks, c) && Balanced(scale, c.balances)
  {
    B.BalanceAlwaysHolds(scale, w, txns, v);
    forall i | 0 <= i < |chunks| ensures L.Passes(chunks[i], c.seen[i]) {
      assert ReadsLater(s, c.seen[i]);
      var table := L.FirstAnswer(L.Tries(c.seen[i])).value;
      var more, t :| L.Run(s, more, t) && L.Durable(more) && t.table == table;
      L.DurableRunsVerify(steps, s, more, t);
      forall id | id in chunks[i] ensures id in table {
        L.PieceInConcat(chunks, i, id);
      }
    }
  }

  /** And one lost row is enough to be caught: the query that names it goes unanswered or
      reads a table without it, whatever the others read. */
  lemma LostRowIsCaught(chunks: seq<seq<int>>, c: Check, id: int)
    requires id in Flatten(chunks) && |chunks| <= |c.seen|
    requires forall i :: 0 <= i < |chunks| && id in chunks[i] && Answered(c.seen[i]) ==>
               id !in L.FirstAnswer(L.Tries(c.seen[i])).value
    ensures !Kept(chunks, c)
  {
    var i := L.ConcatFromPiece(chunks, id);
    assert !L.Passes(chunks[i], c.seen[i]);
  }

  /** The first answer decides: one that is short is a violation whatever a second attempt
      would have read, and a full one passes whatever it would have. */
  lemma FirstAnswerDecides(chunk: seq<int>, first: set<int>, second: set<int>, balances: seq<Option<T.World>>)
    ensures Kept([chunk], Check([[Some(first), Some(second)]], balances)) <==> forall id :: id in chunk ==> id in first
  {
    var c := Check([[Some(first), Some(second)]], balances);
    assert L.Tries(c.seen[0]) == c.seen[0];
    assert L.Passes([chunk][0], c.seen[0]) <==> forall id :: id in chunk ==> id in first;
  }

  /** A stable row missed by one answer only is still recorded as lost. */
  lemma OneShortAnswerIsAViolation()
    ensures !Kept([[1]], Check([[Some({}), Some({1})]], []))
  {
    FirstAnswerDecides([1], {}, {1}, []);
    assert 1 in [1];
  }
}
