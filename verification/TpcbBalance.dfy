/** The balance identity over every run of the transaction machine. */
module TpcbBalance {
  import opened Sums
  import opened Tpcb

  /** The rows a transaction has written before its statement `pc`. */
  function Touched(d: Draw, pc: nat): set<Row> {
    (if pc >= 2 then {Row(Account, d.aid)} else {})
    + (if pc >= 4 then {Row(Teller, d.tid)} else {})
    + (if pc >= 5 then {Row(Branch, d.bid)} else {})
  }

  function Pending(bal: map<Row, int>, d: Draw, pc: nat): map<Row, int> {
    map r | r in Touched(d, pc) :: Get(bal, r) + d.delta
  }

  /** An open transaction holds, on top of what is committed right now, exactly
      the deltas of the statements its client has been answered. */
  ghost predicate ClientOk(scale: nat, bal: map<Row, int>, c: Client, ss: Session) {
    match c.phase
    case Running(pc, d) =>
      && pc < 7 && InRange(d, scale)
      && (match ss
          case Idle => pc == 0
          case Open(writes, inserts) => pc >= 1 && writes == Pending(bal, d, pc) && inserts == (if pc >= 6 then [d] else [])
          case Aborted => false
          case Broken => true)
    case _ => !ss.Open?
  }

  ghost predicate Apart(a: Session, b: Session) {
    a.Open? && b.Open? ==> a.writes.Keys !! b.writes.Keys
  }

  ghost predicate Inv(scale: nat, w: World) {
    && |w.clients| == |w.sessions| && IsLoaded(w.bal, scale)
    && (forall i :: 0 <= i < |w.clients| ==> ClientOk(scale, w.bal, w.clients[i], w.sessions[i]))
    && (forall i, j :: 0 <= i < j < |w.sessions| ==> Apart(w.sessions[i], w.sessions[j]))
    && BalanceHolds(w, scale)
    && |w.history| == Txns(w.clients) + w.lost
  }

  // ----- sums over the tables

  lemma {:induction false} SumUpdate(bal: map<Row, int>, r: Row, v: int, k: Kind, n: nat)
    ensures SumOf(bal[r := v], k, n) == SumOf(bal, k, n) + (if r.kind == k && 1 <= r.id <= n then v - Get(bal, r) else 0)
  {
    if n > 0 { SumUpdate(bal, r, v, k, n - 1); }
  }

  lemma ThreeRows(bal: map<Row, int>, d: Draw)
    ensures var a, t, b := Row(Account, d.aid), Row(Teller, d.tid), Row(Branch, d.bid);
            bal + Pending(bal, d, 6)
            == bal[a := Get(bal, a) + d.delta][t := Get(bal, t) + d.delta][b := Get(bal, b) + d.delta]
  {
  }

  /** A commit of the whole transaction moves every table by the same delta. */
  lemma CommitMoves(scale: nat, bal: map<Row, int>, d: Draw, k: Kind)
    requires InRange(d, scale)
    ensures SumOf(bal + Pending(bal, d, 6), k, SizeOf(scale, k)) == SumOf(bal, k, SizeOf(scale, k)) + d.delta
  {
    hide Pending;
    var a, t, b := Row(Account, d.aid), Row(Teller, d.tid), Row(Branch, d.bid);
    var b1 := bal[a := Get(bal, a) + d.delta];
    var b2 := b1[t := Get(bal, t) + d.delta];
    ThreeRows(bal, d);
    var n := SizeOf(scale, k);
    SumUpdate(bal, a, Get(bal, a) + d.delta, k, n);
    SumUpdate(b1, t, Get(bal, t) + d.delta, k, n);
    SumUpdate(b2, b, Get(bal, b) + d.delta, k, n);
  }

  lemma DeltasSnoc(history: seq<Draw>, d: Draw)
    ensures Deltas(history + [d]) == Deltas(history) + d.delta
  {
    assert (history + [d])[..|history|] == history;
  }

  lemma {:induction false} TxnsUpdate(clients: seq<Client>, i: nat, c: Client)
    requires i < |clients|
    ensures Txns(clients[i := c]) == Txns(clients) - clients[i].txns + c.txns
  {
    var n := |clients| - 1;
    if i < n {
      TxnsUpdate(clients[..n], i, c);
      assert clients[i := c][..n] == clients[..n][i := c];
    } else {
      assert clients[i := c][..n] == clients[..n];
    }
  }

  // ----- the steps

  /** A step of client `i` that commits nothing. */
  lemma PrivateStep(scale: nat, w: World, i: nat, c: Client, ss: Session)
    requires Inv(scale, w) && i < |w.clients| && c.txns == w.clients[i].txns
    requires ClientOk(scale, w.bal, c, ss)
    requires forall j :: 0 <= j < |w.sessions| && j != i ==> Apart(ss, w.sessions[j])
    ensures Inv(scale, w.(sessions := w.sessions[i := ss], clients := w.clients[i := c]))
  {
    TxnsUpdate(w.clients, i, c);
    var v := w.(sessions := w.sessions[i := ss], clients := w.clients[i := c]);
    forall a, b | 0 <= a < b < |v.sessions| ensures Apart(v.sessions[a], v.sessions[b]) {
      assert Apart(w.sessions[a], w.sessions[b]);
      assert b == i ==> Apart(ss, w.sessions[a]);
    }
  }

  lemma Others(scale: nat, w: World, i: nat)
    requires Inv(scale, w) && i < |w.sessions|
    ensures forall j :: 0 <= j < |w.sessions| && j != i ==> Apart(w.sessions[i], w.sessions[j])
  {
    forall j | 0 <= j < |w.sessions| && j != i ensures Apart(w.sessions[i], w.sessions[j]) {
      if j < i { assert Apart(w.sessions[j], w.sessions[i]); }
    }
  }

  /** An update takes a row no other open transaction has written. */
  lemma UpdateInv(scale: nat, w: World, i: nat, next: Round)
    requires Inv(scale, w) && Enabled(scale, w, Ok(i, next)) && NextStmt(w.clients[i]).Update?
    ensures Inv(scale, Do(scale, w, Ok(i, next)))
  {
    hide BalanceHolds, Txns;
    var c, ss := w.clients[i], w.sessions[i];
    var r, d := NextStmt(c).row, c.phase.d;
    assert ClientOk(scale, w.bal, c, ss);
    assert r in w.bal;
    var ss' := ss.(writes := ss.writes[r := Value(w, ss, r) + d.delta]);
    UpdateClient(scale, w.bal, c, next, ss, r, ss'.writes);
    Others(scale, w, i);
    forall j | 0 <= j < |w.sessions| && j != i ensures Apart(ss', w.sessions[j]) {
      assert Apart(ss, w.sessions[j]);
    }
    PrivateStep(scale, w, i, OnReply(c, true, next), ss');
  }

  /** The row is one this transaction had not written. */
  lemma UpdateClient(scale: nat, bal: map<Row, int>, c: Client, next: Round, ss: Session, r: Row, writes: map<Row, int>)
    requires ClientOk(scale, bal, c, ss) && c.phase.Running? && ss.Open?
    requires NextStmt(c) == Update(r, c.phase.d.delta)
    requires writes == ss.writes[r := (if r in ss.writes then ss.writes[r] else Get(bal, r)) + c.phase.d.delta]
    ensures ClientOk(scale, bal, OnReply(c, true, next), ss.(writes := writes))
  {
    assert r !in ss.writes;
    assert writes == Pending(bal, c.phase.d, c.phase.pc + 1);
  }

  lemma QuietInv(scale: nat, w: World, i: nat, next: Round)
    requires Inv(scale, w) && Enabled(scale, w, Ok(i, next))
    requires var s := NextStmt(w.clients[i]); s.Begin? || s.Select? || s.Insert? || s.Rollback?
    ensures Inv(scale, Do(scale, w, Ok(i, next)))
  {
    var c, ss := w.clients[i], w.sessions[i];
    assert ClientOk(scale, w.bal, c, ss);
    Others(scale, w, i);
    var v := Do(scale, w, Ok(i, next));
    var ss' := v.sessions[i];
    if c.phase.Running? && NextStmt(c).Begin? { assert ss'.writes == Pending(w.bal, c.phase.d, 1); }
    if c.phase.Running? && NextStmt(c).Select? { assert Pending(w.bal, c.phase.d, 3) == Pending(w.bal, c.phase.d, 2); }
    if c.phase.Running? && NextStmt(c).Insert? { assert Pending(w.bal, c.phase.d, 6) == Pending(w.bal, c.phase.d, 5); }
    PrivateStep(scale, w, i, v.clients[i], ss');
    assert v == w.(sessions := w.sessions[i := ss'], clients := w.clients[i := v.clients[i]]);
  }

  /** What another transaction holds does not move under a commit that shares no
      row with it. */
  lemma PendingKept(bal: map<Row, int>, writes: map<Row, int>, d: Draw, pc: nat)
    requires writes.Keys !! Touched(d, pc)
    ensures Pending(bal + writes, d, pc) == Pending(bal, d, pc)
  {
  }

  /** The commit itself, acknowledged or not. */
  lemma CommitInv(scale: nat, w: World, i: nat, c': Client, ss': Session, lost: nat)
    requires Inv(scale, w) && i < |w.clients| && w.sessions[i].Open? && w.clients[i].phase.Running? && w.clients[i].phase.pc == 6
    requires !ss'.Open? && ClientOk(scale, w.bal + w.sessions[i].writes, c', ss')
    requires c'.txns + lost == w.clients[i].txns + w.lost + 1
    ensures var ss := w.sessions[i];
            Inv(scale, w.(bal := w.bal + ss.writes, history := w.history + ss.inserts, lost := lost,
                          sessions := w.sessions[i := ss'], clients := w.clients[i := c']))
  {
    var c, ss := w.clients[i], w.sessions[i];
    var d := c.phase.d;
    assert ClientOk(scale, w.bal, c, ss);
    var v := w.(bal := w.bal + ss.writes, history := w.history + ss.inserts, lost := lost,
                sessions := w.sessions[i := ss'], clients := w.clients[i := c']);
    forall k ensures SumOf(v.bal, k, SizeOf(scale, k)) == SumOf(w.bal, k, SizeOf(scale, k)) + d.delta {
      CommitMoves(scale, w.bal, d, k);
    }
    DeltasSnoc(w.history, d);
    TxnsUpdate(w.clients, i, c');
    assert IsLoaded(v.bal, scale) by {
      assert forall r :: r in ss.writes ==> r in w.bal;
    }
    Others(scale, w, i);
    forall j | 0 <= j < |v.clients| ensures ClientOk(scale, v.bal, v.clients[j], v.sessions[j]) {
      if j != i {
        assert ClientOk(scale, w.bal, w.clients[j], w.sessions[j]);
        if w.clients[j].phase.Running? && w.sessions[j].Open? {
          assert Apart(ss, w.sessions[j]);
          PendingKept(w.bal, ss.writes, w.clients[j].phase.d, w.clients[j].phase.pc);
        }
      }
    }
    forall a, b | 0 <= a < b < |v.sessions| ensures Apart(v.sessions[a], v.sessions[b]) {
      assert Apart(w.sessions[a], w.sessions[b]);
    }
  }

  lemma EndInv(scale: nat, w: World, step: Step)
    requires Inv(scale, w) && Enabled(scale, w, step)
    requires (step.Ok? && NextStmt(w.clients[step.i]).End?) || step.LostAck?
    ensures Inv(scale, Do(scale, w, step))
  {
    var i := step.i;
    var c, ss := w.clients[i], w.sessions[i];
    assert ClientOk(scale, w.bal, c, ss);
    var v := Do(scale, w, step);
    assert ss.Open? && c.phase.pc == 6;
    CommitInv(scale, w, i, v.clients[i], v.sessions[i], v.lost);
    assert v.sessions == w.sessions[i := v.sessions[i]];
  }

  lemma FaultInv(scale: nat, w: World, step: Step)
    requires Inv(scale, w) && Enabled(scale, w, step) && (step.Error? || step.Sever?)
    ensures Inv(scale, Do(scale, w, step))
  {
    var i := step.i;
    assert ClientOk(scale, w.bal, w.clients[i], w.sessions[i]);
    var v := Do(scale, w, step);
    PrivateStep(scale, w, i, v.clients[i], v.sessions[i]);
    assert v == w.(sessions := w.sessions[i := v.sessions[i]], clients := w.clients[i := v.clients[i]]);
  }

  lemma KillInv(scale: nat, w: World)
    requires Inv(scale, w)
    ensures Inv(scale, Do(scale, w, Kill))
  {
    forall i | 0 <= i < |w.clients| ensures ClientOk(scale, w.bal, w.clients[i], Broken) {
      assert ClientOk(scale, w.bal, w.clients[i], w.sessions[i]);
    }
  }

  lemma ConnectInv(scale: nat, w: World, d: Draw)
    requires Inv(scale, w) && InRange(d, scale)
    ensures Inv(scale, Do(scale, w, Connect(d)))
  {
    var v := Do(scale, w, Connect(d));
    assert v.clients[..|w.clients|] == w.clients;
    forall a, b | 0 <= a < b < |v.sessions| ensures Apart(v.sessions[a], v.sessions[b]) {
      assert b < |w.sessions| ==> Apart(w.sessions[a], w.sessions[b]);
    }
  }

  lemma StepInv(scale: nat, w: World, step: Step)
    requires Inv(scale, w) && Enabled(scale, w, step)
    ensures Inv(scale, Do(scale, w, step))
  {
    match step
    case Connect(d) => ConnectInv(scale, w, d);
    case Kill => KillInv(scale, w);
    case Sever(_) => FaultInv(scale, w, step);
    case Error(_, _) => FaultInv(scale, w, step);
    case LostAck(_, _) => EndInv(scale, w, step);
    case Ok(i, next) =>
      match NextStmt(w.clients[i])
      case Update(_, _) => UpdateInv(scale, w, i, next);
      case End => EndInv(scale, w, step);
      case _ => QuietInv(scale, w, i, next);
  }

  lemma {:induction false} RunInv(scale: nat, w: World, steps: seq<Step>, v: World)
    requires Inv(scale, w) && Run(scale, w, steps, v)
    ensures Inv(scale, v)
    decreases |steps|
  {
    if steps != [] {
      StepInv(scale, w, steps[0]);
      RunInv(scale, Do(scale, w, steps[0]), steps[1..], v);
    }
  }

  lemma {:induction false} ZeroSum(bal: map<Row, int>, k: Kind, n: nat)
    requires forall r :: r in bal ==> bal[r] == 0
    ensures SumOf(bal, k, n) == 0
  {
    if n > 0 { ZeroSum(bal, k, n - 1); }
  }

  /** From a fresh load, over any interleaving of any number of clients, with any
      failures, lost acknowledgements and kills: the balance check holds, and the
      history has one row for every transaction a client counted and one for
      every commit whose acknowledgement was lost. */
  lemma BalanceAlwaysHolds(scale: nat, w: World, steps: seq<Step>, v: World)
    requires Fresh(w, scale) && Run(scale, w, steps, v)
    ensures BalanceHolds(v, scale)
    ensures |v.history| == Txns(v.clients) + v.lost
  {
    forall k ensures SumOf(w.bal, k, SizeOf(scale, k)) == 0 {
      ZeroSum(w.bal, k, SizeOf(scale, k));
    }
    RunInv(scale, w, steps, v);
  }

  // ----- what the check would catch

  /** The check is of all three tables against the history. */
  lemma BalanceIsEveryTable(w: World, scale: nat)
    ensures BalanceHolds(w, scale) <==> forall k: Kind :: SumOf(w.bal, k, SizeOf(scale, k)) == Deltas(w.history)
  {
    assert (forall k: Kind :: SumOf(w.bal, k, SizeOf(scale, k)) == Deltas(w.history)) ==>
             && SumOf(w.bal, Account, SizeOf(scale, Account)) == Deltas(w.history)
             && SumOf(w.bal, Teller, SizeOf(scale, Teller)) == Deltas(w.history)
             && SumOf(w.bal, Branch, SizeOf(scale, Branch)) == Deltas(w.history);
  }

  /** One row off by anything at all is caught, in whichever table it is. */
  lemma WrongRowIsCaught(w: World, scale: nat, r: Row, v: int)
    requires BalanceHolds(w, scale) && IsLoaded(w.bal, scale) && r in w.bal && v != w.bal[r]
    ensures !BalanceHolds(w.(bal := w.bal[r := v]), scale)
  {
    var k := r.kind;
    SumUpdate(w.bal, r, v, k, SizeOf(scale, k));
    BalanceIsEveryTable(w, scale);
    BalanceIsEveryTable(w.(bal := w.bal[r := v]), scale);
    hide BalanceHolds, SumOf, Deltas;
    assert SumOf(w.bal, k, SizeOf(scale, k)) == Deltas(w.history);
    assert SumOf(w.bal[r := v], k, SizeOf(scale, k)) != Deltas(w.history);
  }

  lemma {:induction false} DeltasWithout(history: seq<Draw>, i: nat)
    requires i < |history|
    ensures Deltas(history[..i] + history[i + 1..]) == Deltas(history) - history[i].delta
  {
    var n := |history| - 1;
    var rest := history[..i] + history[i + 1..];
    if i == n {
      assert rest == history[..n];
    } else {
      DeltasWithout(history[..n], i);
      assert rest[..n - 1] == history[..n][..i] + history[..n][i + 1..] && rest[n - 1] == history[n];
    }
  }

  /** So is a transaction gone from the history, unless it moved nothing. */
  lemma LostHistoryIsCaughtIff(w: World, scale: nat, i: nat)
    requires BalanceHolds(w, scale) && i < |w.history|
    ensures BalanceHolds(w.(history := w.history[..i] + w.history[i + 1..]), scale) <==> w.history[i].delta == 0
  {
    DeltasWithout(w.history, i);
    hide SumOf, Deltas;
  }
}
