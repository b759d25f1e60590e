/** tpcb/tpcb.go and the balance check of cmd/zoubench/sustain.go: clients running
    the seven-statement transaction against a server that may be killed at any
    point, as a step machine. */
module Tpcb {
  import opened Sums

  datatype Kind = Account | Teller | Branch

  datatype Row = Row(kind: Kind, id: nat)

  /** One transaction's variables. */
  datatype Draw = Draw(aid: nat, tid: nat, bid: nat, delta: int)

  datatype Stmt = Begin | Update(row: Row, delta: int) | Select(row: Row) | Insert(d: Draw) | End | Rollback

  /** The statements of one transaction, in order. */
  function Script(d: Draw): (s: seq<Stmt>)
    ensures |s| == 7
  {
    [Begin,
     Update(Row(Account, d.aid), d.delta),
     Select(Row(Account, d.aid)),
     Update(Row(Teller, d.tid), d.delta),
     Update(Row(Branch, d.bid), d.delta),
     Insert(d),
     End]
  }

  // ----- the client

  datatype Phase = Running(pc: nat, d: Draw) | RollingBack | Gone

  datatype Client = Client(phase: Phase, txns: nat, failed: nat)

  /** What the client draws for its next round, and whether the deadline leaves
      room for one. */
  datatype Round = Round(d: Draw, more: bool)

  function Again(c: Client, next: Round): Client {
    c.(phase := if next.more then Running(0, next.d) else Gone)
  }

  function NextStmt(c: Client): Stmt
    requires !c.phase.Gone? && (c.phase.Running? ==> c.phase.pc < 7)
  {
    if c.phase.Running? then Script(c.phase.d)[c.phase.pc] else Rollback
  }

  /** What a reply moves the client to. A failed statement ends the transaction
      and is rolled back; a rollback that does not answer ends the client. */
  function OnReply(c: Client, ok: bool, next: Round): Client {
    match c.phase
    case Running(pc, d) =>
      if !ok then c.(phase := RollingBack, failed := c.failed + 1)
      else if pc < 6 then c.(phase := Running(pc + 1, d))
      else Again(c.(txns := c.txns + 1), next)
    case RollingBack => if ok then Again(c, next) else c.(phase := Gone)
    case Gone => c
  }

  datatype Reply = Reply(ok: bool, next: Round)

  /** The client after a series of replies, and what it sent to get them. */
  function After(c: Client, replies: seq<Reply>): Client {
    if replies == [] then c
    else
      var last := replies[|replies| - 1];
      OnReply(After(c, replies[..|replies| - 1]), last.ok, last.next)
  }

  predicate Sane(c: Client) { c.phase.Running? ==> c.phase.pc < 7 }

  function Sent(c: Client, replies: seq<Reply>): seq<Stmt> {
    if replies == [] then []
    else
      var was := After(c, replies[..|replies| - 1]);
      Sent(c, replies[..|replies| - 1]) + (if was.phase.Gone? || !Sane(was) then [] else [NextStmt(was)])
  }

  /** How many of some statements are rollbacks, and how many open a transaction. */
  function Rollbacks(sent: seq<Stmt>): nat {
    if sent == [] then 0 else Rollbacks(sent[..|sent| - 1]) + (if sent[|sent| - 1].Rollback? then 1 else 0)
  }

  function Begins(sent: seq<Stmt>): nat {
    if sent == [] then 0 else Begins(sent[..|sent| - 1]) + (if sent[|sent| - 1].Begin? then 1 else 0)
  }

  /** A client accounts for every round it began: counted, failed, or under way; and every
      failure but one just met was rolled back, or tried to be. */
  lemma {:induction false} RoundsAccount(first: Draw, replies: seq<Reply>)
    ensures var c := After(Client(Running(0, first), 0, 0), replies);
            var sent := Sent(Client(Running(0, first), 0, 0), replies);
            && Sane(c) && Begins(sent) == c.txns + c.failed + (if c.phase.Running? && c.phase.pc > 0 then 1 else 0)
            && Rollbacks(sent) + (if c.phase.RollingBack? then 1 else 0) == c.failed
  {
    if replies != [] {
      var n := |replies| - 1;
      var start := Client(Running(0, first), 0, 0);
      var was, sent := After(start, replies[..n]), Sent(start, replies[..n]);
      RoundsAccount(first, replies[..n]);
      if !was.phase.Gone? {
        assert (sent + [NextStmt(was)])[..|sent|] == sent;
      } else {
        assert sent + [] == sent;
      }
    }
  }

  /** What a reply leads to. A failed statement is followed by the rollback, an answered one
      by the next of the same transaction, and an answered end or rollback by a new round if
      there is time; the client stops when there is none or when a rollback goes unanswered. */
  lemma NextTurn(first: Draw, replies: seq<Reply>, r: Reply)
    requires !After(Client(Running(0, first), 0, 0), replies).phase.Gone?
    ensures var start := Client(Running(0, first), 0, 0);
            var c, d := After(start, replies), After(start, replies + [r]);
            && Sane(c) && Sane(d)
            && var s := NextStmt(c);
               && Sent(start, replies + [r]) == Sent(start, replies) + [s]
               && (d.phase.Gone? <==> if s.Rollback? then !r.ok || !r.next.more else s.End? && r.ok && !r.next.more)
               && (!d.phase.Gone? ==>
                     NextStmt(d) == if !r.ok then Rollback
                                    else if s.Rollback? || s.End? then Script(r.next.d)[0]
                                    else Script(c.phase.d)[c.phase.pc + 1])
  {
    RoundsAccount(first, replies);
    assert (replies + [r])[..|replies|] == replies;
  }

  lemma AfterSnoc(c: Client, replies: seq<Reply>, i: nat)
    requires i < |replies|
    ensures After(c, replies[..i + 1]) == OnReply(After(c, replies[..i]), replies[i].ok, replies[i].next)
    ensures Sane(After(c, replies[..i])) && !After(c, replies[..i]).phase.Gone? ==>
              Sent(c, replies[..i + 1]) == Sent(c, replies[..i]) + [NextStmt(After(c, replies[..i]))]
  {
    assert replies[..i + 1][..i] == replies[..i];
  }

  /** One round of the loop, from reply `from`: statements in order until one
      fails. `c` is the client the whole loop started from. */
  method RunScript(d: Draw, replies: seq<Reply>, from: nat, ghost c: Client, ghost was: Client)
    returns (sent: seq<Stmt>, k: nat, broke: bool, i: nat)
    requires from < |replies| && was.phase == Running(0, d) && After(c, replies[..from]) == was
    ensures from < i <= |replies| && Sent(c, replies[..i]) == Sent(c, replies[..from]) + sent
    ensures broke ==> After(c, replies[..i]) == was.(phase := RollingBack, failed := was.failed + 1)
    ensures !broke ==> k <= 7 && (k == 7 || i == |replies|)
    ensures !broke && k < 7 ==> After(c, replies[..i]) == was.(phase := Running(k, d))
    ensures !broke && k == 7 ==> After(c, replies[..i]) == Again(was.(txns := was.txns + 1), replies[i - 1].next)
  {
    hide After, Sent;
    var sql := Script(d);
    sent, k, broke, i := [], 0, false, from;
    while k < |sql| && !broke && i < |replies|
      invariant from <= i <= |replies| && k <= 7 && (i == from ==> k == 0 && !broke)
      invariant Sent(c, replies[..i]) == Sent(c, replies[..from]) + sent
      invariant broke ==> After(c, replies[..i]) == was.(phase := RollingBack, failed := was.failed + 1)
      invariant !broke && k < 7 ==> After(c, replies[..i]) == was.(phase := Running(k, d))
      invariant !broke && k == 7 ==> i > 0 && After(c, replies[..i]) == Again(was.(txns := was.txns + 1), replies[i - 1].next)
      decreases |replies| - i
    {
      AfterSnoc(c, replies, i);
      sent := sent + [sql[k]];
      if replies[i].ok { k := k + 1; } else { broke := true; }
      i := i + 1;
    }
  }

  /** The client's loop against a list of replies, up to where it stops or the
      list does: it sends what the client machine sends and counts as it counts. */
  method Loop(first: Draw, replies: seq<Reply>) returns (sent: seq<Stmt>, txns: nat, failed: nat, used: nat)
    ensures used <= |replies|
    ensures var c := Client(Running(0, first), 0, 0);
            && sent == Sent(c, replies[..used])
            && After(c, replies[..used]).txns == txns && After(c, replies[..used]).failed == failed
            && (used == |replies| || After(c, replies[..used]).phase.Gone?)
  {
    ghost var c := Client(Running(0, first), 0, 0);
    sent, txns, failed := [], 0, 0;
    var d, going := first, true;
    var i: nat := 0;
    assert After(c, replies[..0]) == c && Sent(c, replies[..0]) == [];
    hide After, Sent;
    while going && i < |replies|
      invariant i <= |replies|
      invariant sent == Sent(c, replies[..i])
      invariant After(c, replies[..i]) == Client(if going then Running(0, d) else Gone, txns, failed)
      decreases |replies| - i
    {
      var said, k, broke;
      said, k, broke, i := RunScript(d, replies, i, c, Client(Running(0, d), txns, failed));
      sent := sent + said;
      if broke {
        failed := failed + 1;
        if i == |replies| { return sent, txns, failed, i; }
        AfterSnoc(c, replies, i);
        sent := sent + [Rollback];
        i := i + 1;
        if !replies[i - 1].ok { return sent, txns, failed, i; }
      } else if k == 7 {
        txns := txns + 1;
      } else {
        return sent, txns, failed, i;
      }
      d, going := replies[i - 1].next.d, replies[i - 1].next.more;
    }
    used := i;
  }

  // ----- the server

  /** A connection's transaction: private row values and rows to insert. */
  datatype Session = Idle | Open(writes: map<Row, int>, inserts: seq<Draw>) | Aborted | Broken

  datatype World = World(bal: map<Row, int>, history: seq<Draw>, sessions: seq<Session>, clients: seq<Client>,
                         lost: nat)

  datatype Step =
    | Connect(d: Draw)
    | Ok(i: nat, next: Round)
    | Error(i: nat, next: Round)
    | LostAck(i: nat, next: Round)
    | Sever(i: nat)
    | Kill

  function SizeOf(scale: nat, k: Kind): nat {
    match k
    case Account => 100_000 * scale
    case Teller => 10 * scale
    case Branch => scale
  }

  /** Every row the load created. */
  ghost predicate IsLoaded(bal: map<Row, int>, scale: nat) {
    forall r :: r in bal <==> 1 <= r.id <= SizeOf(scale, r.kind)
  }

  predicate InRange(d: Draw, scale: nat) {
    && 1 <= d.aid <= SizeOf(scale, Account)
    && 1 <= d.tid <= SizeOf(scale, Teller)
    && 1 <= d.bid <= SizeOf(scale, Branch)
  }

  ghost predicate Fresh(w: World, scale: nat) {
    && IsLoaded(w.bal, scale) && (forall r :: r in w.bal ==> w.bal[r] == 0)
    && w.history == [] && w.sessions == [] && w.clients == [] && w.lost == 0
  }

  /** Another open transaction has written the row, so this one waits for it. */
  predicate Locked(w: World, i: nat, r: Row) {
    exists j :: 0 <= j < |w.sessions| && j != i && w.sessions[j].Open? && r in w.sessions[j].writes
  }

  predicate CanSucceed(w: World, i: nat, s: Stmt)
    requires i < |w.sessions|
  {
    match w.sessions[i]
    case Broken => false
    case Aborted => s.End? || s.Rollback?
    case _ => !s.Update? || !Locked(w, i, s.row)
  }

  function Value(w: World, ss: Session, r: Row): int {
    if ss.Open? && r in ss.writes then ss.writes[r] else Get(w.bal, r)
  }

  /** The server's side of a statement that succeeds. Outside a transaction a
      statement commits by itself, and ending an aborted one rolls it back. */
  function Serve(w: World, i: nat, s: Stmt): World
    requires i < |w.sessions|
  {
    var ss := w.sessions[i];
    match s
    case Begin => if ss.Idle? then w.(sessions := w.sessions[i := Open(map[], [])]) else w
    case Update(r, delta) =>
      if r !in w.bal then w
      else if ss.Open? then w.(sessions := w.sessions[i := ss.(writes := ss.writes[r := Value(w, ss, r) + delta])])
      else w.(bal := w.bal[r := w.bal[r] + delta])
    case Select(_) => w
    case Insert(d) =>
      if ss.Open? then w.(sessions := w.sessions[i := ss.(inserts := ss.inserts + [d])])
      else w.(history := w.history + [d])
    case End =>
      if ss.Open? then w.(bal := w.bal + ss.writes, history := w.history + ss.inserts, sessions := w.sessions[i := Idle])
      else w.(sessions := w.sessions[i := Idle])
    case Rollback => w.(sessions := w.sessions[i := Idle])
  }

  /** A statement that fails takes its transaction with it. */
  function Refuse(ss: Session, s: Stmt): Session {
    if ss.Open? then (if s.End? then Idle else Aborted) else ss
  }

  predicate Live(w: World, i: nat) {
    i < |w.sessions| && i < |w.clients| && !w.clients[i].phase.Gone? && Sane(w.clients[i])
  }

  predicate Enabled(scale: nat, w: World, step: Step) {
    match step
    case Connect(d) => InRange(d, scale)
    case Ok(i, next) => InRange(next.d, scale) && Live(w, i) && CanSucceed(w, i, NextStmt(w.clients[i]))
    case Error(i, next) => InRange(next.d, scale) && Live(w, i) && (NextStmt(w.clients[i]).Rollback? ==> w.sessions[i].Broken?)
    case LostAck(i, next) => InRange(next.d, scale) && Live(w, i) && NextStmt(w.clients[i]).End? && w.sessions[i].Open?
    case Sever(i) => i < |w.sessions|
    case Kill => true
  }

  function Do(scale: nat, w: World, step: Step): World
    requires Enabled(scale, w, step)
  {
    match step
    case Connect(d) => w.(sessions := w.sessions + [Idle], clients := w.clients + [Client(Running(0, d), 0, 0)])
    case Ok(i, next) =>
      var v := Serve(w, i, NextStmt(w.clients[i]));
      v.(clients := w.clients[i := OnReply(w.clients[i], true, next)])
    case Error(i, next) =>
      w.(sessions := w.sessions[i := Refuse(w.sessions[i], NextStmt(w.clients[i]))],
         clients := w.clients[i := OnReply(w.clients[i], false, next)])
    case LostAck(i, next) =>
      var v := Serve(w, i, End);
      v.(sessions := v.sessions[i := Broken], clients := w.clients[i := OnReply(w.clients[i], false, next)],
         lost := w.lost + 1)
    case Sever(i) => w.(sessions := w.sessions[i := Broken])
    case Kill => w.(sessions := seq(|w.sessions|, _ => Broken))
  }

  ghost predicate Run(scale: nat, w: World, steps: seq<Step>, v: World)
    decreases |steps|
  {
    if steps == [] then v == w
    else Enabled(scale, w, steps[0]) && Run(scale, Do(scale, w, steps[0]), steps[1..], v)
  }

  /** The first `n` statements of a transaction, served one after another. */
  function ServeFirst(w: World, i: nat, d: Draw, n: nat): (v: World)
    requires i < |w.sessions| && n <= 7
    ensures |v.sessions| == |w.sessions|
  {
    if n == 0 then w else Serve(ServeFirst(w, i, d, n - 1), i, Script(d)[n - 1])
  }

  /** A transaction nobody interferes with, from a session that is idle: it adds its delta to
      one account, one teller and one branch and itself to the history, and its select reads
      the account balance it has just written. */
  lemma {:induction false} OneTransaction(w: World, i: nat, d: Draw)
    requires i < |w.sessions| && w.sessions[i].Idle?
    requires Row(Account, d.aid) in w.bal && Row(Teller, d.tid) in w.bal && Row(Branch, d.bid) in w.bal
    ensures var a, t, b := Row(Account, d.aid), Row(Teller, d.tid), Row(Branch, d.bid);
            ServeFirst(w, i, d, 7)
            == w.(bal := w.bal[a := w.bal[a] + d.delta][t := w.bal[t] + d.delta][b := w.bal[b] + d.delta],
                  history := w.history + [d])
    ensures Script(d)[2].Select?
    ensures var v := ServeFirst(w, i, d, 2); Value(v, v.sessions[i], Script(d)[2].row) == w.bal[Row(Account, d.aid)] + d.delta
  {
    var a, t, b := Row(Account, d.aid), Row(Teller, d.tid), Row(Branch, d.bid);
    var m := map[a := w.bal[a] + d.delta][t := w.bal[t] + d.delta][b := w.bal[b] + d.delta];
    ThreeUpdates(w, i, d);
    assert [] + [d] == [d];
    assert ServeFirst(w, i, d, 6) == w.(sessions := w.sessions[i := Open(m, [d])]);
    assert w.bal + m == w.bal[a := w.bal[a] + d.delta][t := w.bal[t] + d.delta][b := w.bal[b] + d.delta];
    assert w.sessions[i := Open(m, [d])][i := Idle] == w.sessions;
  }

  lemma {:induction false} ThreeUpdates(w: World, i: nat, d: Draw)
    requires i < |w.sessions| && w.sessions[i].Idle?
    requires Row(Account, d.aid) in w.bal && Row(Teller, d.tid) in w.bal && Row(Branch, d.bid) in w.bal
    ensures var a, t, b := Row(Account, d.aid), Row(Teller, d.tid), Row(Branch, d.bid);
            var m := map[a := w.bal[a] + d.delta];
            && ServeFirst(w, i, d, 2) == w.(sessions := w.sessions[i := Open(m, [])])
            && ServeFirst(w, i, d, 5)
               == w.(sessions := w.sessions[i := Open(m[t := w.bal[t] + d.delta][b := w.bal[b] + d.delta], [])])
  {
    var a, t := Row(Account, d.aid), Row(Teller, d.tid);
    assert ServeFirst(w, i, d, 1) == w.(sessions := w.sessions[i := Open(map[], [])]);
    var m := map[a := w.bal[a] + d.delta];
    var w2 := w.(sessions := w.sessions[i := Open(m, [])]);
    assert ServeFirst(w, i, d, 2) == w2;
    assert ServeFirst(w, i, d, 3) == w2;
    assert ServeFirst(w, i, d, 4) == w.(sessions := w.sessions[i := Open(m[t := w.bal[t] + d.delta], [])]);
  }

  /** The rows of a load at each scale, all of them and no others. */
  lemma LoadedRows(bal: map<Row, int>, scale: nat)
    requires IsLoaded(bal, scale)
    ensures forall id: nat :: Row(Account, id) in bal <==> 1 <= id <= 100_000 * scale
    ensures forall id: nat :: Row(Teller, id) in bal <==> 1 <= id <= 10 * scale
    ensures forall id: nat :: Row(Branch, id) in bal <==> 1 <= id <= scale
    ensures forall d: Draw :: InRange(d, scale) <==>
              Row(Account, d.aid) in bal && Row(Teller, d.tid) in bal && Row(Branch, d.bid) in bal
  {
  }

  // ----- what the check reads

  function SumOf(bal: map<Row, int>, k: Kind, n: nat): int {
    if n == 0 then 0 else SumOf(bal, k, n - 1) + Get(bal, Row(k, n))
  }

  function Deltas(history: seq<Draw>): int {
    if history == [] then 0 else Deltas(history[..|history| - 1]) + history[|history| - 1].delta
  }

  /** verifyBalance, on a server that answers. */
  predicate BalanceHolds(w: World, scale: nat) {
    && Deltas(w.history) == SumOf(w.bal, Account, SizeOf(scale, Account))
    && Deltas(w.history) == SumOf(w.bal, Branch, SizeOf(scale, Branch))
    && Deltas(w.history) == SumOf(w.bal, Teller, SizeOf(scale, Teller))
  }

  function Txns(clients: seq<Client>): nat {
    if clients == [] then 0 else Txns(clients[..|clients| - 1]) + clients[|clients| - 1].txns
  }
}
