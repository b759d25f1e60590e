/** probe/probe.go: the calibration run against an object store that may throttle, and
    the requests and the keys it accounts for. */
module Probe {
  import opened Options

  /** The keys below the run's own directory, and every other key of the bucket. */
  datatype Key = Warm(i: nat) | Small(i: nat) | Large(i: nat) | Other(name: string)

  /** A bucket, by the length of each body. */
  type Bucket = map<Key, nat>

  datatype Op = Put(key: Key, size: nat) | Get(key: Key) | Delete(key: Key) | List

  function Apply(op: Op, b: Bucket): Bucket {
    match op
    case Put(k, n) => b[k := n]
    case Delete(k) => b - {k}
    case _ => b
  }

  /** What one request gets back. A request that was lost or refused may have taken
      effect all the same; one that is answered below 300 has. */
  datatype Reply = Lost(took: bool) | Answer(status: int, took: bool)

  predicate Took(r: Reply) {
    r.took || (r.Answer? && r.status < 300)
  }

  predicate Retryable(status: int) {
    status in {429, 500, 502, 503, 504}
  }

  /** The answers to come, one for each request ever sent. */
  type Net = nat -> Reply

  datatype Outcome = Outcome(ok: bool, used: nat, slow: nat, bucket: Bucket)

  const ATTEMPTS: nat := 4

  /** One operation from its `attempt`-th request on. */
  function Try(op: Op, net: Net, pos: nat, attempt: nat, b: Bucket): Outcome
    decreases ATTEMPTS - attempt
  {
    var r := net(pos);
    var b' := if Took(r) then Apply(op, b) else b;
    if r.Lost? then Outcome(false, 1, 0, b')
    else if r.status < 300 then Outcome(true, 1, 0, b')
    else if !Retryable(r.status) then Outcome(false, 1, 0, b')
    else if attempt < ATTEMPTS then
      var rest := Try(op, net, pos + 1, attempt + 1, b');
      Outcome(rest.ok, rest.used + 1, rest.slow + 1, rest.bucket)
    else Outcome(false, 1, 1, b')
  }

  /** One request of it. */
  lemma TryOnce(op: Op, net: Net, pos: nat, attempt: nat, b: Bucket)
    ensures var r, t := net(pos), Try(op, net, pos, attempt, b);
            var b' := if Took(r) then Apply(op, b) else b;
            if r.Answer? && r.status >= 300 && Retryable(r.status) && attempt < ATTEMPTS then
              var rest := Try(op, net, pos + 1, attempt + 1, b');
              t == Outcome(rest.ok, rest.used + 1, rest.slow + 1, rest.bucket)
            else
              t == Outcome(r.Answer? && r.status < 300, 1, if r.Answer? && Retryable(r.status) then 1 else 0, b')
  {
  }

  lemma ApplyTwice(op: Op, b: Bucket)
    ensures Apply(op, Apply(op, b)) == Apply(op, b)
  {
  }

  /** An operation that succeeds took one request more than it was throttled, at most
      three times; whatever throttled requests did, the bucket is as if it had been
      sent once. One that fails took effect once or not at all. */
  lemma {:induction false} TryAccounts(op: Op, net: Net, pos: nat, attempt: nat, b: Bucket)
    requires 1 <= attempt <= ATTEMPTS
    ensures var t := Try(op, net, pos, attempt, b);
            && t.used <= ATTEMPTS + 1 - attempt
            && (t.ok ==> t.used == t.slow + 1 && t.bucket == Apply(op, b))
            && (!t.ok ==> t.slow <= t.used <= t.slow + 1 && (t.bucket == b || t.bucket == Apply(op, b)))
    decreases ATTEMPTS - attempt
  {
    hide Try, Apply;
    TryOnce(op, net, pos, attempt, b);
    var b' := if Took(net(pos)) then Apply(op, b) else b;
    ApplyTwice(op, b);
    if net(pos).Answer? && Retryable(net(pos).status) && attempt < ATTEMPTS {
      TryAccounts(op, net, pos + 1, attempt + 1, b');
    }
  }

  /** A store that always gives the same answer is asked four times if that is one of the
      five throttling statuses, and once if it is any other. */
  lemma SameAnswer(op: Op, status: int, took: bool, pos: nat, b: Bucket)
    ensures var t := Try(op, (i: nat) => Answer(status, took), pos, 1, b);
            var throttled := status == 429 || status == 500 || status == 502 || status == 503 || status == 504;
            t.ok == (status < 300) && t.used == (if throttled then 4 else 1) && t.slow == (if throttled then 4 else 0)
  {
    var net: Net := (i: nat) => Answer(status, took);
    hide Try, Apply;
    var b1 := if Took(Answer(status, took)) then Apply(op, b) else b;
    ApplyTwice(op, b);
    TryOnce(op, net, pos, 1, b);
    TryOnce(op, net, pos + 1, 2, b1);
    TryOnce(op, net, pos + 2, 3, b1);
    TryOnce(op, net, pos + 3, 4, b1);
  }

  // ----- a sequence of operations, stopping at the first that fails

  function Exec(ops: seq<Op>, net: Net, pos: nat, b: Bucket): Outcome {
    if ops == [] then Outcome(true, 0, 0, b)
    else
      var p := Exec(ops[..|ops| - 1], net, pos, b);
      if !p.ok then p
      else
        var t := Try(ops[|ops| - 1], net, pos + p.used, 1, p.bucket);
        Outcome(t.ok, p.used + t.used, p.slow + t.slow, t.bucket)
  }

  function ApplyAll(ops: seq<Op>, b: Bucket): Bucket {
    if ops == [] then b else Apply(ops[|ops| - 1], ApplyAll(ops[..|ops| - 1], b))
  }

  lemma ExecNext(ops: seq<Op>, n: nat, net: Net, pos: nat, b: Bucket)
    requires n < |ops|
    ensures var p := Exec(ops[..n], net, pos, b);
            var t := Try(ops[n], net, pos + p.used, 1, p.bucket);
            Exec(ops[..n + 1], net, pos, b) == if !p.ok then p else Outcome(t.ok, p.used + t.used, p.slow + t.slow, t.bucket)
  {
    hide Try;
    assert ops[..n + 1][..n] == ops[..n];
  }

  lemma {:induction false} ExecStops(ops: seq<Op>, n: nat, net: Net, pos: nat, b: Bucket)
    requires n <= |ops| && !Exec(ops[..n], net, pos, b).ok
    ensures Exec(ops, net, pos, b) == Exec(ops[..n], net, pos, b)
    decreases |ops| - n
  {
    hide Exec;
    if n == |ops| {
      assert ops[..n] == ops;
    } else {
      ExecNext(ops, n, net, pos, b);
      ExecStops(ops, n + 1, net, pos, b);
    }
  }

  /** A whole sequence: each success accounts for one request that was not throttled. */
  lemma {:induction false} ExecAccounts(ops: seq<Op>, net: Net, pos: nat, b: Bucket)
    requires Exec(ops, net, pos, b).ok
    ensures var e := Exec(ops, net, pos, b);
            e.used == e.slow + |ops| && e.slow <= 3 * |ops| && e.bucket == ApplyAll(ops, b)
  {
    hide Try, Apply;
    if ops != [] {
      var init := ops[..|ops| - 1];
      var p := Exec(init, net, pos, b);
      ExecAccounts(init, net, pos, b);
      TryAccounts(ops[|ops| - 1], net, pos + p.used, 1, p.bucket);
    }
  }

  /** Whether any of `n` requests from `from` on took effect. */
  predicate TookAny(net: Net, from: nat, n: nat)
    decreases n
  {
    n > 0 && (Took(net(from)) || TookAny(net, from + 1, n - 1))
  }

  /** An operation acted on the bucket, once, if any of its requests took effect. */
  lemma {:induction false} TryEffect(op: Op, net: Net, pos: nat, attempt: nat, b: Bucket)
    requires 1 <= attempt <= ATTEMPTS
    ensures var t := Try(op, net, pos, attempt, b);
            t.bucket == if TookAny(net, pos, t.used) then Apply(op, b) else b
    decreases ATTEMPTS - attempt
  {
    hide Try, Apply;
    TryOnce(op, net, pos, attempt, b);
    ApplyTwice(op, b);
    if net(pos).Answer? && net(pos).status >= 300 && Retryable(net(pos).status) && attempt < ATTEMPTS {
      TryEffect(op, net, pos + 1, attempt + 1, if Took(net(pos)) then Apply(op, b) else b);
    }
  }

  /** Operation `n` is the one at which the sequence stops. */
  predicate FailsAt(ops: seq<Op>, n: nat, net: Net, pos: nat, b: Bucket) {
    n < |ops| && Exec(ops[..n], net, pos, b).ok && !Exec(ops[..n + 1], net, pos, b).ok
  }

  /** How many operations took effect: those before it, and it too if one of its
      requests did. */
  function Applied(ops: seq<Op>, n: nat, net: Net, pos: nat, b: Bucket): nat
    requires n < |ops|
  {
    var p := Exec(ops[..n], net, pos, b);
    var t := Try(ops[n], net, pos + p.used, 1, p.bucket);
    n + if TookAny(net, pos + p.used, t.used) then 1 else 0
  }

  lemma {:induction false} SomeOperationFails(ops: seq<Op>, net: Net, pos: nat, b: Bucket) returns (n: nat)
    requires !Exec(ops, net, pos, b).ok
    ensures FailsAt(ops, n, net, pos, b)
  {
    var last := |ops| - 1;
    if Exec(ops[..last], net, pos, b).ok {
      n := last;
      assert ops[..last + 1] == ops;
    } else {
      n := SomeOperationFails(ops[..last], net, pos, b);
      assert ops[..last][..n] == ops[..n] && ops[..last][..n + 1] == ops[..n + 1];
    }
  }

  lemma OneOperationFails(ops: seq<Op>, n: nat, m: nat, net: Net, pos: nat, b: Bucket)
    requires FailsAt(ops, n, net, pos, b) && FailsAt(ops, m, net, pos, b)
    ensures n == m
  {
    hide Exec;
    var low, high := if n < m then n else m, if n < m then m else n;
    if low < high {
      assert ops[..high][..low + 1] == ops[..low + 1];
      ExecStops(ops[..high], low + 1, net, pos, b);
    }
  }

  /** A sequence that stops has left the effect of its first operations and no others. */
  lemma ExecFails(ops: seq<Op>, n: nat, net: Net, pos: nat, b: Bucket)
    requires FailsAt(ops, n, net, pos, b)
    ensures var m := Applied(ops, n, net, pos, b);
            m <= |ops| && !Exec(ops, net, pos, b).ok && Exec(ops, net, pos, b).bucket == ApplyAll(ops[..m], b)
  {
    hide Try, Apply, Exec;
    var p := Exec(ops[..n], net, pos, b);
    ExecStops(ops, n + 1, net, pos, b);
    ExecNext(ops, n, net, pos, b);
    ExecAccounts(ops[..n], net, pos, b);
    TryEffect(ops[n], net, pos + p.used, 1, p.bucket);
    assert ops[..n + 1][..n] == ops[..n];
  }

  /** One sequence after another. */
  lemma {:induction false} ExecConcat(a: seq<Op>, c: seq<Op>, net: Net, pos: nat, b: Bucket)
    ensures var w := Exec(a, net, pos, b);
            var p := Exec(c, net, pos + w.used, w.bucket);
            Exec(a + c, net, pos, b) == if w.ok then Outcome(p.ok, w.used + p.used, w.slow + p.slow, p.bucket) else w
    decreases |c|
  {
    hide Try;
    if c == [] {
      assert a + c == a;
    } else {
      assert (a + c)[..|a + c| - 1] == a + c[..|c| - 1];
      ExecConcat(a, c[..|c| - 1], net, pos, b);
    }
  }

  lemma {:induction false} ApplyConcat(a: seq<Op>, c: seq<Op>, b: Bucket)
    ensures ApplyAll(a + c, b) == ApplyAll(c, ApplyAll(a, b))
    decreases |c|
  {
    hide Apply;
    if c == [] {
      assert a + c == a;
    } else {
      assert (a + c)[..|a + c| - 1] == a + c[..|c| - 1];
      ApplyConcat(a, c[..|c| - 1], b);
    }
  }

  predicate Touches(op: Op, k: Key) {
    (op.Put? || op.Delete?) && op.key == k
  }

  lemma {:induction false} Untouched(ops: seq<Op>, b: Bucket, k: Key)
    requires forall op :: op in ops ==> !Touches(op, k)
    ensures k in ApplyAll(ops, b) <==> k in b
    ensures k in b ==> ApplyAll(ops, b)[k] == b[k]
  {
    if ops != [] {
      assert !Touches(ops[|ops| - 1], k);
      Untouched(ops[..|ops| - 1], b, k);
    }
  }

  /** The last operation that touches a key decides whether it is there. */
  lemma {:induction false} LastTouch(ops: seq<Op>, b: Bucket, k: Key, j: nat)
    requires j < |ops| && Touches(ops[j], k)
    requires forall i :: j < i < |ops| ==> Touches(ops[i], k) ==> ops[i].Put? == ops[j].Put?
    ensures k in ApplyAll(ops, b) <==> ops[j].Put?
  {
    var n := |ops| - 1;
    if j < n {
      LastTouch(ops[..n], b, k, j);
    }
  }

  // ----- the run

  datatype Settings = Settings(samples: int, payload: int, large: int, largeN: int)

  /** Zero values, and negative ones, take the defaults. */
  function Defaults(o: Settings): (r: Settings)
    ensures r.samples > 0 && r.payload > 0 && r.large > 0 && r.largeN > 0
    ensures r.samples == o.samples || (o.samples <= 0 && r.samples == 200)
    ensures r.payload == o.payload || (o.payload <= 0 && r.payload == 0x2000)
    ensures r.large == o.large || (o.large <= 0 && r.large == 0x100_0000)
    ensures r.largeN == o.largeN || (o.largeN <= 0 && r.largeN == 3)
  {
    Settings(if o.samples <= 0 then 200 else o.samples,
             if o.payload <= 0 then 8192 else o.payload,
             if o.large <= 0 then 16 * 1024 * 1024 else o.large,
             if o.largeN <= 0 then 3 else o.largeN)
  }

  predicate Valid(o: Settings) {
    o.samples > 0 && o.payload > 0 && o.large > 0 && o.largeN > 0
  }

  function Lists(o: Settings): nat
    requires Valid(o)
  {
    if o.samples / 4 < 10 then 10 else o.samples / 4
  }

  /** Where the large round trips and the deletes begin. */
  function LargeFrom(o: Settings): nat
    requires Valid(o)
  {
    2 * o.samples + Lists(o)
  }

  function DeletesFrom(o: Settings): nat
    requires Valid(o)
  {
    LargeFrom(o) + 3 * o.largeN
  }

  function Total(o: Settings): nat
    requires Valid(o)
  {
    DeletesFrom(o) + o.samples
  }

  function Trip(k: Key, size: nat, step: nat): Op {
    if step == 0 then Put(k, size) else if step == 1 then Get(k) else Delete(k)
  }

  function OpAt(o: Settings, n: nat): Op
    requires Valid(o) && n < Total(o)
  {
    if n < o.samples then Put(Small(n), o.payload)
    else if n < 2 * o.samples then Get(Small(n - o.samples))
    else if n < LargeFrom(o) then List
    else if n < DeletesFrom(o) then Trip(Large((n - LargeFrom(o)) / 3), o.large, (n - LargeFrom(o)) % 3)
    else Delete(Small(n - DeletesFrom(o)))
  }

  function Plan(o: Settings): (ops: seq<Op>)
    requires Valid(o)
    ensures |ops| == Total(o)
  {
    seq(Total(o), n requires 0 <= n < Total(o) => OpAt(o, n))
  }

  function WarmUp(o: Settings): (ops: seq<Op>)
    requires Valid(o)
    ensures |ops| == 9
  {
    seq(9, n requires 0 <= n < 9 => Trip(Warm(n / 3), o.payload, n % 3))
  }

  class Remote {
    const net: Net
    var calls: nat
    var bucket: Bucket

    constructor (net: Net, bucket: Bucket)
      ensures this.net == net && calls == 0 && this.bucket == bucket
    {
      this.net, this.calls, this.bucket := net, 0, bucket;
    }

    method Send(op: Op) returns (r: Reply)
      modifies this
      ensures r == net(old(calls)) && calls == old(calls) + 1
      ensures bucket == if Took(r) then Apply(op, old(bucket)) else old(bucket)
    {
      r := net(calls);
      calls := calls + 1;
      if Took(r) { bucket := Apply(op, bucket); }
    }
  }

  class Runner {
    const c: Remote
    var attempts: nat
    var slowdowns: nat

    constructor (c: Remote)
      ensures this.c == c && attempts == 0 && slowdowns == 0
    {
      this.c, attempts, slowdowns := c, 0, 0;
    }

    method Timed(op: Op) returns (ok: bool)
      modifies this, c
      ensures var t := Try(op, c.net, old(c.calls), 1, old(c.bucket));
              && ok == t.ok && attempts == old(attempts) + t.used && slowdowns == old(slowdowns) + t.slow
              && c.calls == old(c.calls) + t.used && c.bucket == t.bucket
    {
      hide Apply, Took, Try;
      var attempt := 1;
      ghost var whole := Try(op, c.net, c.calls, 1, c.bucket);
      while true
        invariant 1 <= attempt <= ATTEMPTS
        invariant var t := Try(op, c.net, c.calls, attempt, c.bucket);
                  && whole.ok == t.ok && old(attempts) + whole.used == attempts + t.used
                  && old(slowdowns) + whole.slow == slowdowns + t.slow
                  && old(c.calls) + whole.used == c.calls + t.used && whole.bucket == t.bucket
        decreases ATTEMPTS - attempt
      {
        TryOnce(op, c.net, c.calls, attempt, c.bucket);
        var r := c.Send(op);
        attempts := attempts + 1;
        if r.Lost? { return false; }
        if r.status < 300 { return true; }
        if Retryable(r.status) {
          slowdowns := slowdowns + 1;
          if attempt < 4 {
            attempt := attempt + 1;
            continue;
          }
        }
        return false;
      }
    }

    /** The counters and the bucket are those of the first `n` operations, all of which
        succeeded. */
    ghost predicate Done(ops: seq<Op>, n: nat, pos: nat, b: Bucket)
      reads this, c
    {
      && n <= |ops|
      && Exec(ops[..n], c.net, pos, b) == Outcome(true, attempts, slowdowns, c.bucket)
      && c.calls == pos + attempts
    }

    method Next(op: Op, ghost ops: seq<Op>, ghost n: nat, ghost pos: nat, ghost b: Bucket) returns (ok: bool)
      requires Done(ops, n, pos, b) && n < |ops| && ops[n] == op
      modifies this, c
      ensures ok ==> Done(ops, n + 1, pos, b)
      ensures !ok ==> Exec(ops, c.net, pos, b) == Outcome(false, attempts, slowdowns, c.bucket)
    {
      hide Try, Exec;
      ok := Timed(op);
      ExecNext(ops, n, c.net, pos, b);
      if !ok { ExecStops(ops, n + 1, c.net, pos, b); }
    }
  }

  datatype Summary = Summary(attempts: nat, slowdowns: nat)

  /** Warm-up and measurement, as two sequences of operations. */
  ghost function RunOf(o: Settings, net: Net, pos: nat, b: Bucket): Outcome
    requires Valid(o)
  {
    var w := Exec(WarmUp(o), net, pos, b);
    if w.ok then Exec(Plan(o), net, pos + w.used, w.bucket) else w
  }

  lemma WarmAt(o: Settings, i: nat)
    requires Valid(o) && i < 3
    ensures var n := 3 * i;
            && WarmUp(o)[n] == Put(Warm(i), o.payload)
            && WarmUp(o)[n + 1] == Get(Warm(i)) && WarmUp(o)[n + 2] == Delete(Warm(i))
  {
  }

  lemma LargeAt(o: Settings, i: nat)
    requires Valid(o) && i < o.largeN
    ensures var n := LargeFrom(o) + 3 * i;
            && n + 3 <= DeletesFrom(o) <= |Plan(o)|
            && Plan(o)[n] == Put(Large(i), o.large) && Plan(o)[n + 1] == Get(Large(i)) && Plan(o)[n + 2] == Delete(Large(i))
  {
  }

  lemma SmallAt(o: Settings, i: nat)
    requires Valid(o) && i < o.samples
    ensures o.samples + i < |Plan(o)| && DeletesFrom(o) + i < |Plan(o)| == DeletesFrom(o) + o.samples
    ensures Plan(o)[i] == Put(Small(i), o.payload) && Plan(o)[o.samples + i] == Get(Small(i))
    ensures Plan(o)[DeletesFrom(o) + i] == Delete(Small(i))
  {
  }

  lemma ListAt(o: Settings, i: nat)
    requires Valid(o) && i < Lists(o)
    ensures 2 * o.samples + i < |Plan(o)| && Plan(o)[2 * o.samples + i] == List
    ensures LargeFrom(o) == 2 * o.samples + Lists(o)
  {
  }

  /** Put, get and delete of one key. */
  method RoundTrip(r: Runner, k: Key, size: nat, ghost ops: seq<Op>, ghost n: nat, ghost pos: nat, ghost b: Bucket)
    returns (ok: bool)
    requires r.Done(ops, n, pos, b) && n + 3 <= |ops|
    requires ops[n] == Put(k, size) && ops[n + 1] == Get(k) && ops[n + 2] == Delete(k)
    modifies r, r.c
    ensures ok ==> r.Done(ops, n + 3, pos, b)
    ensures !ok ==> Exec(ops, r.c.net, pos, b) == Outcome(false, r.attempts, r.slowdowns, r.c.bucket)
  {
    hide *;
    ok := r.Next(Put(k, size), ops, n, pos, b);
    if !ok { return; }
    ok := r.Next(Get(k), ops, n + 1, pos, b);
    if !ok { return; }
    ok := r.Next(Delete(k), ops, n + 2, pos, b);
  }

  method WarmUps(r: Runner, o: Settings) returns (ok: bool)
    requires Valid(o) && r.attempts == 0 && r.slowdowns == 0
    modifies r, r.c
    ensures ok ==> r.Done(WarmUp(o), 9, old(r.c.calls), old(r.c.bucket))
    ensures !ok ==> Exec(WarmUp(o), r.c.net, old(r.c.calls), old(r.c.bucket)) == Outcome(false, r.attempts, r.slowdowns, r.c.bucket)
  {
    ghost var pos, b, ops := r.c.calls, r.c.bucket, WarmUp(o);
    assert r.Done(ops, 0, pos, b);
    hide *;
    for i := 0 to 3
      invariant r.Done(ops, 3 * i, pos, b)
    {
      WarmAt(o, i);
      ok := RoundTrip(r, Warm(i), o.payload, ops, 3 * i, pos, b);
      if !ok { return; }
    }
    ok := true;
  }

  method Puts(r: Runner, o: Settings, ghost pos: nat, ghost b: Bucket) returns (ok: bool)
    requires Valid(o) && r.Done(Plan(o), 0, pos, b)
    modifies r, r.c
    ensures ok ==> r.Done(Plan(o), o.samples, pos, b)
    ensures !ok ==> Exec(Plan(o), r.c.net, pos, b) == Outcome(false, r.attempts, r.slowdowns, r.c.bucket)
  {
    assert o.samples > 0;
    hide *;
    for i := 0 to o.samples
      invariant r.Done(Plan(o), i, pos, b)
    {
      SmallAt(o, i);
      ok := r.Next(Put(Small(i), o.payload), Plan(o), i, pos, b);
      if !ok { return; }
    }
    ok := true;
  }

  method Gets(r: Runner, o: Settings, ghost pos: nat, ghost b: Bucket) returns (ok: bool)
    requires Valid(o) && r.Done(Plan(o), o.samples, pos, b)
    modifies r, r.c
    ensures ok ==> r.Done(Plan(o), 2 * o.samples, pos, b)
    ensures !ok ==> Exec(Plan(o), r.c.net, pos, b) == Outcome(false, r.attempts, r.slowdowns, r.c.bucket)
  {
    assert o.samples > 0;
    hide *;
    for i := 0 to o.samples
      invariant r.Done(Plan(o), o.samples + i, pos, b)
    {
      SmallAt(o, i);
      ok := r.Next(Get(Small(i)), Plan(o), o.samples + i, pos, b);
      if !ok { return; }
    }
    ok := true;
  }

  lemma ListCount(o: Settings, listN: int)
    requires Valid(o) && listN == if o.samples / 4 < 10 then 10 else o.samples / 4
    ensures listN == Lists(o) > 0
  {
  }

  method Listings(r: Runner, o: Settings, ghost pos: nat, ghost b: Bucket) returns (ok: bool)
    requires Valid(o) && r.Done(Plan(o), 2 * o.samples, pos, b)
    modifies r, r.c
    ensures ok ==> r.Done(Plan(o), LargeFrom(o), pos, b)
    ensures !ok ==> Exec(Plan(o), r.c.net, pos, b) == Outcome(false, r.attempts, r.slowdowns, r.c.bucket)
  {
    var listN := o.samples / 4;
    if listN < 10 { listN := 10; }
    assert o.samples > 0;
    hide *;
    ListCount(o, listN);
    for i := 0 to listN
      invariant r.Done(Plan(o), 2 * o.samples + i, pos, b)
    {
      ListAt(o, i);
      ok := r.Next(List, Plan(o), 2 * o.samples + i, pos, b);
      if !ok { return; }
    }
    ListAt(o, 0);
    ok := true;
  }

  lemma LargeEnds(o: Settings)
    requires Valid(o)
    ensures o.largeN > 0 && DeletesFrom(o) == LargeFrom(o) + 3 * o.largeN
  {
  }

  method Larges(r: Runner, o: Settings, ghost pos: nat, ghost b: Bucket) returns (ok: bool)
    requires Valid(o) && r.Done(Plan(o), LargeFrom(o), pos, b)
    modifies r, r.c
    ensures ok ==> r.Done(Plan(o), DeletesFrom(o), pos, b)
    ensures !ok ==> Exec(Plan(o), r.c.net, pos, b) == Outcome(false, r.attempts, r.slowdowns, r.c.bucket)
  {
    hide *;
    LargeEnds(o);
    ghost var from := LargeFrom(o);
    for i := 0 to o.largeN
      invariant r.Done(Plan(o), from + 3 * i, pos, b)
    {
      LargeAt(o, i);
      ok := RoundTrip(r, Large(i), o.large, Plan(o), from + 3 * i, pos, b);
      if !ok { return; }
    }
    ok := true;
  }

  method Deletes(r: Runner, o: Settings, ghost pos: nat, ghost b: Bucket) returns (ok: bool)
    requires Valid(o) && r.Done(Plan(o), DeletesFrom(o), pos, b)
    modifies r, r.c
    ensures ok ==> r.Done(Plan(o), |Plan(o)|, pos, b)
    ensures !ok ==> Exec(Plan(o), r.c.net, pos, b) == Outcome(false, r.attempts, r.slowdowns, r.c.bucket)
  {
    assert o.samples > 0;
    hide *;
    for i := 0 to o.samples
      invariant r.Done(Plan(o), DeletesFrom(o) + i, pos, b)
    {
      SmallAt(o, i);
      ok := r.Next(Delete(Small(i)), Plan(o), DeletesFrom(o) + i, pos, b);
      if !ok { return; }
    }
    SmallAt(o, 0);
    ok := true;
  }

  method Measure(r: Runner, o: Settings) returns (ok: bool)
    requires Valid(o) && r.attempts == 0 && r.slowdowns == 0
    modifies r, r.c
    ensures ok ==> r.Done(Plan(o), |Plan(o)|, old(r.c.calls), old(r.c.bucket))
    ensures !ok ==> Exec(Plan(o), r.c.net, old(r.c.calls), old(r.c.bucket)) == Outcome(false, r.attempts, r.slowdowns, r.c.bucket)
  {
    ghost var pos, b := r.c.calls, r.c.bucket;
    assert r.Done(Plan(o), 0, pos, b);
    hide *;
    ok := Puts(r, o, pos, b);
    if !ok { return; }
    ok := Gets(r, o, pos, b);
    if !ok { return; }
    ok := Listings(r, o, pos, b);
    if !ok { return; }
    ok := Larges(r, o, pos, b);
    if !ok { return; }
    ok := Deletes(r, o, pos, b);
  }

  /** The run: a few round trips that are not counted, then the measurement. */
  method Run(c: Remote, opt: Settings) returns (s: Option<Summary>)
    modifies c
    ensures var e := RunOf(Defaults(opt), c.net, old(c.calls), old(c.bucket));
            s == (if e.ok then Some(Summary(e.used, e.slow)) else None) && c.bucket == e.bucket
  {
    var o := Defaults(opt);
    hide Exec;
    ghost var pos, b := c.calls, c.bucket;
    var r := new Runner(c);
    var ok := WarmUps(r, o);
    if !ok { return None; }
    assert WarmUp(o)[..9] == WarmUp(o);
    assert Plan(o)[..|Plan(o)|] == Plan(o);
    r.attempts, r.slowdowns := 0, 0;
    ok := Measure(r, o);
    if !ok { return None; }
    s := Some(Summary(r.attempts, r.slowdowns));
  }

  // ----- what a run accounts for

  /** A run that succeeds counted every measured operation once, plus one request for
      each time it was throttled; the share it reports is at most three in four. */
  lemma AttemptsAccountForTheRun(o: Settings, net: Net, pos: nat, b: Bucket)
    requires Valid(o) && RunOf(o, net, pos, b).ok
    ensures var e := RunOf(o, net, pos, b);
            var planned := 3 * o.samples + (if o.samples < 40 then 10 else o.samples / 4) + 3 * o.largeN;
            e.used == e.slow + planned && e.slow <= 3 * planned && 4 * e.slow <= 3 * e.used
  {
    var w := Exec(WarmUp(o), net, pos, b);
    ExecAccounts(Plan(o), net, pos + w.used, w.bucket);
  }

  function RunKeys(o: Settings): set<Key>
    requires Valid(o)
  {
    (set i: nat | i < 3 :: Warm(i)) + (set i: nat | i < o.samples :: Small(i)) + (set i: nat | i < o.largeN :: Large(i))
  }

  lemma OtherKeysUntouched(o: Settings, k: Key)
    requires Valid(o) && k !in RunKeys(o)
    ensures forall op :: op in WarmUp(o) + Plan(o) ==> !Touches(op, k)
  {
    forall n: nat | n < 9 ensures !Touches(WarmUp(o)[n], k) {
      assert Warm(n / 3) in RunKeys(o);
    }
    forall n: nat | n < Total(o) ensures !Touches(Plan(o)[n], k) {
      PlanKeys(o, n);
    }
  }

  lemma PlanKeys(o: Settings, n: nat)
    requires Valid(o) && n < Total(o)
    ensures OpAt(o, n).List? || OpAt(o, n).key in RunKeys(o)
  {
  }

  /** In the warm-up and in the measurement the last touch of a key is its delete. */
  lemma WarmUpCleans(o: Settings, b: Bucket, i: nat)
    requires Valid(o) && i < 3
    ensures Warm(i) !in ApplyAll(WarmUp(o), b)
  {
    LastTouch(WarmUp(o), b, Warm(i), 3 * i + 2);
  }

  lemma PlanCleans(o: Settings, b: Bucket, k: Key)
    requires Valid(o) && k in RunKeys(o) && !k.Warm?
    ensures k !in ApplyAll(Plan(o), b)
  {
    if k.Small? {
      LastTouch(Plan(o), b, k, DeletesFrom(o) + k.i);
    } else {
      LargeAt(o, k.i);
      LastTouch(Plan(o), b, k, LargeFrom(o) + 3 * k.i + 2);
    }
  }

  /** Whatever was throttled, a run that succeeds leaves the bucket as it found it but
      for its own keys, and exactly as it found it if and only if those were new. */
  lemma SuccessCleansUp(o: Settings, net: Net, pos: nat, b: Bucket)
    requires Valid(o) && RunOf(o, net, pos, b).ok
    ensures RunOf(o, net, pos, b).bucket == b - RunKeys(o)
    ensures RunOf(o, net, pos, b).bucket == b <==> b.Keys !! RunKeys(o)
  {
    hide Exec, OpAt, RunKeys;
    var w := Exec(WarmUp(o), net, pos, b);
    ExecAccounts(WarmUp(o), net, pos, b);
    ExecAccounts(Plan(o), net, pos + w.used, w.bucket);
    var v := ApplyAll(Plan(o), w.bucket);
    forall k ensures k in v <==> k in b - RunKeys(o)
      ensures k in v ==> v[k] == b[k] {
      KeyAfterRun(o, b, k);
    }
    assert v == b - RunKeys(o);
    NothingTakenOut(b, RunKeys(o));
  }

  lemma NothingTakenOut(b: Bucket, keys: set<Key>)
    ensures b - keys == b <==> b.Keys !! keys
  {
    assert (b - keys).Keys == b.Keys - keys;
    if b.Keys !! keys { assert b - keys == b; }
  }

  lemma KeyAfterRun(o: Settings, b: Bucket, k: Key)
    requires Valid(o)
    ensures var v := ApplyAll(Plan(o), ApplyAll(WarmUp(o), b));
            (k in v <==> k in b && k !in RunKeys(o)) && (k in v ==> v[k] == b[k])
  {
    var w := ApplyAll(WarmUp(o), b);
    if k !in RunKeys(o) {
      OtherKeysUntouched(o, k);
      Untouched(WarmUp(o), b, k);
      Untouched(Plan(o), w, k);
    } else if k.Warm? {
      WarmUpCleans(o, b, k.i);
      forall op | op in Plan(o) ensures !Touches(op, k) {
        var n :| 0 <= n < Total(o) && op == OpAt(o, n);
      }
      Untouched(Plan(o), w, k);
    } else {
      PlanCleans(o, w, k);
    }
  }

  /** Every operation of a run, the warm-up first. */
  function Whole(o: Settings): (ops: seq<Op>)
    requires Valid(o)
    ensures |ops| == 9 + Total(o)
  {
    WarmUp(o) + Plan(o)
  }

  lemma RunIsWhole(o: Settings, net: Net, pos: nat, b: Bucket)
    requires Valid(o)
    ensures var r, e := RunOf(o, net, pos, b), Exec(Whole(o), net, pos, b);
            r.ok == e.ok && r.bucket == e.bucket
  {
    hide Exec;
    ExecConcat(WarmUp(o), Plan(o), net, pos, b);
  }

  /** Between two round trips of the warm-up, or after everything. */
  predicate CleanAfter(o: Settings, m: nat)
    requires Valid(o)
  {
    (m <= 9 && m % 3 == 0) || m == 9 + Total(o)
  }

  /** A run that fails, wherever it does, leaves the bucket as it found it if and only if
      the operations that took effect end between two round trips of the warm-up or are
      all of them. They are those before the one that failed, and that one if any of its
      requests took effect. The run's keys are new, its directory being named anew. */
  lemma FailureLeavesKeys(o: Settings, n: nat, net: Net, pos: nat, b: Bucket)
    requires Valid(o) && FailsAt(Whole(o), n, net, pos, b)
    ensures var m, e := Applied(Whole(o), n, net, pos, b), RunOf(o, net, pos, b);
            && m <= |Whole(o)| && !e.ok && e.bucket == ApplyAll(Whole(o)[..m], b)
            && (b.Keys !! RunKeys(o) ==> (e.bucket == b <==> CleanAfter(o, m)))
  {
    hide Exec, Applied, ApplyAll, Whole;
    ExecFails(Whole(o), n, net, pos, b);
    RunIsWhole(o, net, pos, b);
    if b.Keys !! RunKeys(o) { PrefixLeaves(o, b, Applied(Whole(o), n, net, pos, b)); }
  }

  /** A run fails at exactly one operation, if at all. */
  lemma RunFailsOnce(o: Settings, net: Net, pos: nat, b: Bucket) returns (n: nat)
    requires Valid(o) && !RunOf(o, net, pos, b).ok
    ensures FailsAt(Whole(o), n, net, pos, b)
    ensures forall k: nat :: FailsAt(Whole(o), k, net, pos, b) ==> k == n
  {
    hide Exec, FailsAt;
    RunIsWhole(o, net, pos, b);
    n := SomeOperationFails(Whole(o), net, pos, b);
    forall k: nat | FailsAt(Whole(o), k, net, pos, b) ensures k == n {
      OneOperationFails(Whole(o), k, n, net, pos, b);
    }
  }

  /** Every operation answered but number `n`, which is refused. */
  function RefusedAt(n: nat): Net {
    (i: nat) => if i == n then Answer(403, false) else Answer(200, true)
  }

  lemma {:induction false} AnsweredSoFar(ops: seq<Op>, n: nat, k: nat, b: Bucket)
    requires k <= n && k <= |ops|
    ensures Exec(ops[..k], RefusedAt(n), 0, b).ok && Exec(ops[..k], RefusedAt(n), 0, b).used == k
  {
    if k > 0 {
      AnsweredSoFar(ops, n, k - 1, b);
      hide Exec;
      ExecNext(ops, k - 1, RefusedAt(n), 0, b);
    }
  }

  /** Any operation can be the one that fails. Each such run leaves a key behind, but for
      those that stop in front of a round trip of the warm-up or just after it. */
  lemma RefusedRun(o: Settings, n: nat, b: Bucket)
    requires Valid(o) && b.Keys !! RunKeys(o) && n < |Whole(o)|
    ensures FailsAt(Whole(o), n, RefusedAt(n), 0, b) && Applied(Whole(o), n, RefusedAt(n), 0, b) == n
    ensures RunOf(o, RefusedAt(n), 0, b).bucket == b <==> n <= 9 && n % 3 == 0
  {
    hide Exec, Whole, RunOf;
    AnsweredSoFar(Whole(o), n, n, b);
    assert !TookAny(RefusedAt(n), n, 1) by { assert !TookAny(RefusedAt(n), n + 1, 0); }
    ExecNext(Whole(o), n, RefusedAt(n), 0, b);
    FailureLeavesKeys(o, n, RefusedAt(n), 0, b);
  }

  // ----- what a prefix of a run leaves

  lemma PrefixLeaves(o: Settings, b: Bucket, m: nat)
    requires Valid(o) && b.Keys !! RunKeys(o) && m <= |Whole(o)|
    ensures ApplyAll(Whole(o)[..m], b) == b <==> CleanAfter(o, m)
  {
    if m <= 9 {
      assert Whole(o)[..m] == WarmUp(o)[..m];
      WarmUpLeaves(o, b, m);
    } else {
      assert Whole(o)[..m] == WarmUp(o) + Plan(o)[..m - 9];
      ApplyConcat(WarmUp(o), Plan(o)[..m - 9], b);
      WarmUpLeaves(o, b, 9);
      assert WarmUp(o)[..9] == WarmUp(o);
      PlanLeaves(o, b, m - 9);
    }
  }

  lemma PlanLeaves(o: Settings, b: Bucket, m: nat)
    requires Valid(o) && b.Keys !! RunKeys(o) && 0 < m <= Total(o)
    ensures ApplyAll(Plan(o)[..m], b) == b <==> m == Total(o)
  {
    hide ApplyAll, OpAt;
    if m == Total(o) {
      assert Plan(o)[..m] == Plan(o);
      PlanRestores(o, b);
    } else {
      var k := LeftAfter(o, b, m);
      assert k !in b;
    }
  }

  lemma WarmUpLeaves(o: Settings, b: Bucket, m: nat)
    requires Valid(o) && b.Keys !! RunKeys(o) && m <= 9
    ensures ApplyAll(WarmUp(o)[..m], b) == b <==> m % 3 == 0
  {
    var ops := WarmUp(o)[..m];
    if m % 3 == 0 {
      var v := ApplyAll(ops, b);
      forall k ensures k in v <==> k in b
        ensures k in v ==> v[k] == b[k] {
        WarmPrefixClean(o, b, m, k);
      }
    } else {
      var k := Warm(m / 3);
      assert ops[m / 3 * 3] == Put(k, o.payload);
      LastTouch(ops, b, k, m / 3 * 3);
      assert k in RunKeys(o);
    }
  }

  lemma WarmPrefixClean(o: Settings, b: Bucket, m: nat, k: Key)
    requires Valid(o) && b.Keys !! RunKeys(o) && m <= 9 && m % 3 == 0
    ensures var v := ApplyAll(WarmUp(o)[..m], b);
            (k in v <==> k in b) && (k in v ==> v[k] == b[k])
  {
    var ops := WarmUp(o)[..m];
    if k.Warm? && k.i < m / 3 {
      assert ops[3 * k.i + 2] == Delete(k);
      LastTouch(ops, b, k, 3 * k.i + 2);
      assert k in RunKeys(o);
    } else {
      forall n: nat | n < m ensures !Touches(ops[n], k) {}
      Untouched(ops, b, k);
    }
  }

  /** Stopped before the deletes the first key is still there, and during them the last. */
  lemma LeftAfter(o: Settings, b: Bucket, m: nat) returns (k: Key)
    requires Valid(o) && 0 < m < Total(o)
    ensures k in RunKeys(o) && k in ApplyAll(Plan(o)[..m], b)
  {
    var i := if m <= DeletesFrom(o) then 0 else o.samples - 1;
    k := Small(i);
    assert Plan(o)[..m][i] == Put(k, o.payload);
    forall n | i < n < m ensures Touches(Plan(o)[..m][n], k) ==> Plan(o)[..m][n].Put? {
      assert Plan(o)[..m][n] == OpAt(o, n);
    }
    LastTouch(Plan(o)[..m], b, k, i);
  }

  lemma PlanRestores(o: Settings, b: Bucket)
    requires Valid(o) && b.Keys !! RunKeys(o)
    ensures ApplyAll(Plan(o), b) == b
  {
    WarmUpLeaves(o, b, 9);
    assert WarmUp(o)[..9] == WarmUp(o);
    var v := ApplyAll(Plan(o), b);
    forall k ensures k in v <==> k in b
      ensures k in v ==> v[k] == b[k] {
      KeyAfterRun(o, b, k);
    }
  }
}
