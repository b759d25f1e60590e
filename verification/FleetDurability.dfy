/** What the state file of a fleet is worth after any run of calls, failed saves, kills
    and reloads. */
module FleetDurability {
  import opened Sorting
  import opened Sums
  import opened Options
  import opened ByteStrings
  import opened FleetState

  ghost predicate Proper(ready: seq<Bytes>) {
    SortedBy(ready, Le) && Distinct(ready)
  }

  /** The refs a reader of the file would find. */
  function FileRefs(w: World): set<Bytes> {
    match w.disk.state
    case Some(Whole(f)) => Elems(f.ready)
    case _ => {}
  }

  function Pending(phase: Phase): set<Bytes> {
    if phase.Idle? then {} else {phase.ref}
  }

  /** The file is absent or complete, and an earlier list. */
  ghost predicate FileInv(w: World) {
    && (forall l :: l in w.log.lists ==> Proper(l))
    && match w.disk.state
       case None => true
       case Some(Torn) => false
       case Some(Whole(f)) => w.path != [] && f.ready in w.log.lists
  }

  /** A process has what its list says, never less than the file, and writes for the
      same tenants. */
  ghost predicate ProcInv(w: World, p: Process) {
    && p.ready in w.log.lists && p.have == Elems(p.ready)
    && FileRefs(w) <= p.have && Pending(p.phase) <= p.have
    && (w.path == [] ==> p.phase.Idle? || p.phase.Marked?)
    && (p.phase.Written? ==> w.disk.tmp == Some(Whole(Snapshot(p))))
    && match w.disk.state
       case Some(Whole(f)) => p.store == f.store && (f.secret != [] ==> p.secret == f.secret)
       case _ => true
  }

  /** While no save has failed the file holds everything that was acknowledged, and a
      process is ahead of it by at most the call under way. */
  ghost predicate DurableInv(w: World) {
    w.path != [] && w.log.failed == 0 ==>
      && w.log.acked <= FileRefs(w)
      && (w.proc.Some? ==> w.proc.value.have == FileRefs(w) + Pending(w.proc.value.phase))
  }

  ghost predicate Inv(w: World) {
    FileInv(w) && (w.proc.Some? ==> ProcInv(w, w.proc.value)) && DurableInv(w)
  }

  /** The file never loses a ref, and never changes hands. */
  ghost predicate Kept(w: World, v: World) {
    && w.path == v.path && FileRefs(w) <= FileRefs(v)
    && match w.disk.state
       case Some(Whole(f)) =>
         (match v.disk.state
          case Some(Whole(g)) => f.store == g.store && (f.secret != [] ==> f.secret == g.secret)
          case _ => false)
       case _ => true
  }

  lemma GrownIsProper(ready: seq<Bytes>, ref: Bytes)
    requires Proper(ready) && ref !in ready
    ensures Proper(Grown(ready, ref)) && Elems(Grown(ready, ref)) == Elems(ready) + {ref}
  {
    LeOrders();
    SortSorts(ready + [ref], Le);
    StaysDistinct(Grown(ready, ref), ready + [ref]);
  }

  lemma LoadInv(w: World, store: Bytes, secret: Bytes)
    requires Inv(w) && w.proc.None?
    ensures Inv(Do(w, Load(store, secret)))
  {
    assert Elems<Bytes>([]) == {};
  }

  lemma BeginInv(w: World, ref: Bytes)
    requires Inv(w) && Enabled(w, Begin(ref))
    ensures Inv(Do(w, Begin(ref)))
  {
    var p := w.proc.value;
    if ref !in p.have {
      GrownIsProper(p.ready, ref);
    }
  }

  lemma StepInv(w: World, e: Event)
    requires Inv(w) && Enabled(w, e)
    ensures Inv(Do(w, e)) && Kept(w, Do(w, e))
  {
    match e
    case Load(store, secret) => LoadInv(w, store, secret);
    case Begin(ref) => BeginInv(w, ref);
    case _ =>
  }

  /** Every reachable state, whatever failed and whenever the program was killed. */
  lemma {:induction false} RunInv(w: World, events: seq<Event>, v: World)
    requires Inv(w) && Run(w, events) == Some(v)
    ensures Inv(v) && Kept(w, v)
    decreases |events|
  {
    if events != [] {
      StepInv(w, events[0]);
      RunInv(Do(w, events[0]), events[1..], v);
    }
  }

  lemma StartInv(path: Bytes, tmp: Option<Content>)
    ensures Inv(Start(path, tmp))
  {
  }

  /** The file is never half of anything: it is absent, or a sorted list without
      repeats that some process held as ready at an earlier moment. */
  lemma FileIsAnEarlierList(path: Bytes, tmp: Option<Content>, events: seq<Event>, w: World)
    requires Run(Start(path, tmp), events) == Some(w)
    ensures match w.disk.state
            case None => true
            case Some(Torn) => false
            case Some(Whole(f)) => Proper(f.ready) && f.ready in w.log.lists
  {
    StartInv(path, tmp);
    RunInv(Start(path, tmp), events, w);
  }

  /** With no failed save, killing the program at any point and starting it again
      against the same store finds every ref whose Add returned. */
  lemma ReloadFindsWhatReturned(path: Bytes, tmp: Option<Content>, events: seq<Event>, w: World, secret: Bytes)
    requires path != [] && Run(Start(path, tmp), events) == Some(w) && w.log.failed == 0
    ensures w.log.acked <= FileRefs(w)
    ensures match w.disk.state
            case None => w.log.acked == {}
            case Some(Torn) => false
            case Some(Whole(f)) =>
              f.secret == [] || secret == [] || secret == f.secret ==>
                match LoadFrom(w.disk, f.store, secret)
                case Fresh(p) => p.ready == f.ready && p.have == FileRefs(w) && w.log.acked <= p.have
                case _ => false
  {
    StartInv(path, tmp);
    RunInv(Start(path, tmp), events, w);
    assert Kept(Start(path, tmp), w);
  }

  /** There is such a run: a first call whose save works leaves its ref acknowledged and on
      disk, with no save failed. */
  lemma FirstAdd(path: Bytes, store: Bytes, secret: Bytes, ref: Bytes, tmp: Option<Content>)
    requires path != []
    ensures var w := Run(Start(path, tmp), [Load(store, secret), Begin(ref), OpenTmp, FinishTmp, Rename]);
            && w.Some? && w.value.log.failed == 0 && w.value.log.acked == {ref}
            && w.value.disk == Disk(Some(Whole(File(store, secret, [ref]))), None)
  {
    var w := Do(Start(path, tmp), Load(store, secret));
    var p := w.proc.value;
    assert Elems<Bytes>([]) == {};
    var none: seq<Bytes> := [];
    assert none + [ref] == [ref] && Grown(none, ref) == Sort([ref], Le);
    assert Sort([ref], Le) == [ref] by { assert [ref][1..] == none; }
    var q := p.(have := p.have + {ref}, ready := [ref]);
    ScriptRuns(w, ref, Works);
    RunCons(Start(path, tmp), Load(store, secret), Script(w, ref, Works));
    assert [Load(store, secret)] + Script(w, ref, Works) == [Load(store, secret), Begin(ref), OpenTmp, FinishTmp, Rename];
  }

  // ----- saves that fail

  lemma AddRuns(w: World, ref: Bytes, luck: Luck, v: World)
    requires w.proc.Some? && w.proc.value.phase == Idle && Run(w, Script(w, ref, luck)) == Some(v)
    ensures var p := w.proc.value;
            var q := p.(have := p.have + {ref}, ready := Grown(p.ready, ref));
            v == if ref in p.have then w.(log := Ack(w.log, ref))
                 else AfterSave(w.(proc := Some(q), log := Held(w.log, q.ready)), ref, luck)
  {
    if ref in w.proc.value.have { RunCons(w, Begin(ref), []); } else { ScriptRuns(w, ref, luck); }
  }

  /** A call of Add that returns without an error has put the ref on disk if and only if
      the ref was new to the process or already in the file: a ref whose save failed
      once is acknowledged later without being written. */
  lemma AcknowledgedIsOnDiskIff(w: World, ref: Bytes, luck: Luck, v: World)
    requires Inv(w) && w.path != [] && w.proc.Some? && w.proc.value.phase == Idle
    requires Run(w, Script(w, ref, luck)) == Some(v)
    requires luck == Works || ref in w.proc.value.have
    ensures ref in v.log.acked
    ensures ref in FileRefs(v) <==> ref !in w.proc.value.have || ref in FileRefs(w)
  {
    AddRuns(w, ref, luck, v);
    if ref !in w.proc.value.have { GrownIsProper(w.proc.value.ready, ref); }
  }

  /** The next save that works writes everything the process has, so it also makes good
      every save that failed before it. */
  lemma NextSaveCatchesUp(w: World, ref: Bytes, v: World)
    requires Inv(w) && w.path != [] && w.proc.Some? && w.proc.value.phase == Idle && ref !in w.proc.value.have
    requires Run(w, Script(w, ref, Works)) == Some(v)
    ensures v.proc.Some? && FileRefs(v) == w.proc.value.have + {ref} == v.proc.value.have
  {
    AddRuns(w, ref, Works, v);
    GrownIsProper(w.proc.value.ready, ref);
  }

  /** The failing case as a run: the first save fails, the second call for the same ref
      returns without an error, and nothing was ever written. */
  lemma FailedThenForgotten(path: Bytes, store: Bytes, ref: Bytes)
    requires path != []
    ensures var events := [Load(store, []), Begin(ref), Fail, Begin(ref)];
            var w := Run(Start(path, None), events);
            w.Some? && ref in w.value.log.acked && w.value.disk.state == None
  {
    var w0 := Start(path, None);
    var w1 := Do(w0, Load(store, []));
    var w2 := Do(w1, Begin(ref));
    var w3 := Do(w2, Fail);
    RunCons(w3, Begin(ref), []);
    RunCons(w2, Fail, [Begin(ref)]);
    RunCons(w1, Begin(ref), [Fail, Begin(ref)]);
    RunCons(w0, Load(store, []), [Begin(ref), Fail, Begin(ref)]);
    assert [Load(store, [])] + ([Begin(ref)] + ([Fail] + [Begin(ref)])) == [Load(store, []), Begin(ref), Fail, Begin(ref)];
    assert [Begin(ref)] + ([Fail] + [Begin(ref)]) == [Begin(ref), Fail, Begin(ref)];
  }
}
