/** fleet/state.go: the file a fleet run keeps of the tenants that are ready, written
    through a temporary file and a rename, under kills between any two steps. */
module FleetState {
  import opened Sorting
  import opened Sums
  import opened Options
  import opened ByteStrings

  datatype File = File(store: Bytes, secret: Bytes, ready: seq<Bytes>)

  /** What a path holds: a document written to the end, or the start of one. */
  datatype Content = Whole(file: File) | Torn

  datatype Disk = Disk(state: Option<Content>, tmp: Option<Content>)

  /** How far the call of Add that holds the mutex has come. */
  datatype Phase = Idle | Marked(ref: Bytes) | Writing(ref: Bytes) | Written(ref: Bytes)

  /** One run of the program, with its State. */
  datatype Process = Process(store: Bytes, secret: Bytes, ready: seq<Bytes>, have: set<Bytes>, phase: Phase)

  /** What has happened so far: the refs whose Add returned without an error, how many
      saves failed, and every list the process has held as ready. */
  datatype Log = Log(acked: set<Bytes>, failed: nat, lists: set<seq<Bytes>>)

  datatype World = World(path: Bytes, disk: Disk, proc: Option<Process>, log: Log)

  datatype Event =
    | Load(store: Bytes, secret: Bytes)
    | Begin(ref: Bytes)
    | Skip
    | OpenTmp
    | FinishTmp
    | Rename
    | Fail
    | Kill

  // ----- loading

  datatype Loaded = Fresh(proc: Process) | OtherStore | OtherSecret | Unreadable

  function LoadFrom(disk: Disk, store: Bytes, secret: Bytes): Loaded {
    match disk.state
    case None => Fresh(Process(store, secret, [], {}, Idle))
    case Some(Torn) => Unreadable
    case Some(Whole(on)) =>
      if on.store != store then OtherStore
      else if on.secret != [] && secret != [] && on.secret != secret then OtherSecret
      else Fresh(Process(store, if on.secret != [] then on.secret else secret, on.ready, Elems(on.ready), Idle))
  }

  /** When a file is refused, and what a process takes from one that is not. */
  lemma LoadMeans(f: File, tmp: Option<Content>, store: Bytes, secret: Bytes)
    ensures var got := LoadFrom(Disk(Some(Whole(f)), tmp), store, secret);
            && (got.OtherStore? <==> f.store != store)
            && (got.OtherSecret? <==> f.store == store && f.secret != secret && f.secret != [] && secret != [])
            && !got.Unreadable?
            && (got.Fresh? ==>
                  && got.proc.store == store && got.proc.ready == f.ready && (forall ref :: ref in got.proc.have <==> ref in f.ready)
                  && (got.proc.secret == secret || got.proc.secret == f.secret)
                  && (got.proc.secret == [] <==> secret == [] && f.secret == []))
  {
  }

  // ----- the steps

  function Snapshot(p: Process): File {
    File(p.store, p.secret, p.ready)
  }

  predicate Enabled(w: World, e: Event) {
    match e
    case Load(_, _) => w.proc.None?
    case Begin(_) => w.proc.Some? && w.proc.value.phase.Idle?
    case Skip => w.proc.Some? && w.proc.value.phase.Marked? && w.path == []
    case OpenTmp => w.proc.Some? && w.proc.value.phase.Marked? && w.path != []
    case FinishTmp => w.proc.Some? && w.proc.value.phase.Writing?
    case Rename => w.proc.Some? && w.proc.value.phase.Written?
    case Fail => w.proc.Some? && !w.proc.value.phase.Idle? && w.path != []
    case Kill => w.proc.Some?
  }

  function Ack(log: Log, ref: Bytes): Log {
    log.(acked := log.acked + {ref})
  }

  function Held(log: Log, ready: seq<Bytes>): Log {
    log.(lists := log.lists + {ready})
  }

  /** The ready list with one more ref, sorted again. */
  function Grown(ready: seq<Bytes>, ref: Bytes): seq<Bytes> {
    Sort(ready + [ref], Le)
  }

  /** The start of Add: a ref already held returns at once, another is put into the
      map and the list before anything is written. */
  function Begun(w: World, p: Process, ref: Bytes): World {
    if ref in p.have then w.(log := Ack(w.log, ref))
    else
      var q := p.(have := p.have + {ref}, ready := Grown(p.ready, ref), phase := Marked(ref));
      w.(proc := Some(q), log := Held(w.log, q.ready))
  }

  function Do(w: World, e: Event): World
    requires Enabled(w, e)
  {
    match e
    case Load(store, secret) =>
      (match LoadFrom(w.disk, store, secret)
       case Fresh(p) => w.(proc := Some(p), log := Held(w.log, p.ready))
       case _ => w)
    case Begin(ref) => Begun(w, w.proc.value, ref)
    case Skip => w.(proc := Some(w.proc.value.(phase := Idle)), log := Ack(w.log, w.proc.value.phase.ref))
    case OpenTmp =>
      w.(disk := w.disk.(tmp := Some(Torn)), proc := Some(w.proc.value.(phase := Writing(w.proc.value.phase.ref))))
    case FinishTmp =>
      w.(disk := w.disk.(tmp := Some(Whole(Snapshot(w.proc.value)))),
         proc := Some(w.proc.value.(phase := Written(w.proc.value.phase.ref))))
    case Rename =>
      w.(disk := Disk(w.disk.tmp, None), proc := Some(w.proc.value.(phase := Idle)),
         log := Ack(w.log, w.proc.value.phase.ref))
    case Fail => w.(proc := Some(w.proc.value.(phase := Idle)), log := w.log.(failed := w.log.failed + 1))
    case Kill => w.(proc := None)
  }

  function Run(w: World, events: seq<Event>): Option<World>
    decreases |events|
  {
    if events == [] then Some(w)
    else if Enabled(w, events[0]) then Run(Do(w, events[0]), events[1..])
    else None
  }

  /** Before the first run: no state file, perhaps a left-over temporary one. */
  function Start(path: Bytes, tmp: Option<Content>): World {
    World(path, Disk(None, tmp), None, Log({}, 0, {}))
  }

  // ----- the class

  /** What the file system does to one save. */
  datatype Luck = Works | NoDirectory | NoWrite | NoRename

  /** The steps one whole call of Add takes. */
  function Script(w: World, ref: Bytes, luck: Luck): seq<Event>
    requires w.proc.Some?
  {
    if ref in w.proc.value.have then [Begin(ref)]
    else if w.path == [] then [Begin(ref), Skip]
    else
      match luck
      case NoDirectory => [Begin(ref), Fail]
      case NoWrite => [Begin(ref), OpenTmp, Fail]
      case NoRename => [Begin(ref), OpenTmp, FinishTmp, Fail]
      case Works => [Begin(ref), OpenTmp, FinishTmp, Rename]
  }

  class Files {
    var disk: Disk

    constructor (disk: Disk)
      ensures this.disk == disk
    {
      this.disk := disk;
    }
  }

  class State {
    const path: Bytes
    const files: Files
    var store: Bytes
    var secret: Bytes
    var ready: seq<Bytes>
    var have: set<Bytes>
    ghost var log: Log

    /** The machine's state between two calls. */
    ghost function View(): World
      reads this, files
    {
      World(path, files.disk, Some(Process(store, secret, ready, have, Idle)), log)
    }

    constructor (path: Bytes, files: Files, store: Bytes, secret: Bytes, ready: seq<Bytes>, ghost log: Log)
      ensures this.path == path && this.files == files
      ensures View() == World(path, files.disk, Some(Process(store, secret, ready, Elems(ready), Idle)), Held(log, ready))
    {
      this.path, this.files, this.store, this.secret, this.ready := path, files, store, secret, ready;
      this.have := Elems(ready);
      this.log := Held(log, ready);
    }

    method Has(ref: Bytes) returns (r: bool)
      ensures r == (ref in View().proc.value.have)
    {
      r := ref in have;
    }

    method Add(ref: Bytes, luck: Luck) returns (ok: bool)
      modifies this, files
      ensures Run(old(View()), Script(old(View()), ref, luck)) == Some(View())
      ensures ok <==> luck == Works || ref in old(have) || path == []
    {
      ghost var w := View();
      if ref in have {
        log := Ack(log, ref);
        return true;
      }
      have := have + {ref};
      ready := Sort(ready + [ref], Le);
      log := Held(log, ready);
      ok := Save(ref, luck);
      ScriptRuns(w, ref, luck);
    }

    method Save(ghost ref: Bytes, luck: Luck) returns (ok: bool)
      modifies this`log, files
      ensures View() == AfterSave(old(View()), ref, luck)
      ensures ok <==> luck == Works || path == []
    {
      if path == [] {
        log := Ack(log, ref);
        return true;
      }
      if luck == NoDirectory {
        log := log.(failed := log.failed + 1);
        return false;
      }
      var raw := File(store, secret, ready);
      files.disk := files.disk.(tmp := Some(Torn));
      if luck == NoWrite {
        log := log.(failed := log.failed + 1);
        return false;
      }
      files.disk := files.disk.(tmp := Some(Whole(raw)));
      if luck == NoRename {
        log := log.(failed := log.failed + 1);
        return false;
      }
      files.disk := Disk(files.disk.tmp, None);
      log := Ack(log, ref);
      ok := true;
    }
  }

  /** One save, seen from the calls around it. */
  function AfterSave(w: World, ref: Bytes, luck: Luck): World
    requires w.proc.Some?
  {
    var failed := w.log.(failed := w.log.failed + 1);
    var whole := Some(Whole(Snapshot(w.proc.value)));
    if w.path == [] then w.(log := Ack(w.log, ref))
    else
      match luck
      case NoDirectory => w.(log := failed)
      case NoWrite => w.(log := failed, disk := w.disk.(tmp := Some(Torn)))
      case NoRename => w.(log := failed, disk := w.disk.(tmp := whole))
      case Works => w.(log := Ack(w.log, ref), disk := Disk(whole, None))
  }

  lemma ScriptRuns(w: World, ref: Bytes, luck: Luck)
    requires w.proc.Some? && w.proc.value.phase == Idle && ref !in w.proc.value.have
    ensures var p := w.proc.value;
            var q := p.(have := p.have + {ref}, ready := Grown(p.ready, ref));
            Run(w, Script(w, ref, luck)) == Some(AfterSave(w.(proc := Some(q), log := Held(w.log, q.ready)), ref, luck))
  {
    var w1 := Do(w, Begin(ref));
    RunCons(w, Begin(ref), Script(w, ref, luck)[1..]);
    if w.path == [] {
      RunCons(w1, Skip, []);
    } else if luck == NoDirectory {
      RunCons(w1, Fail, []);
    } else {
      var w2 := Do(w1, OpenTmp);
      RunCons(w1, OpenTmp, Script(w, ref, luck)[2..]);
      if luck == NoWrite {
        RunCons(w2, Fail, []);
      } else {
        var w3 := Do(w2, FinishTmp);
        RunCons(w2, FinishTmp, Script(w, ref, luck)[3..]);
        RunCons(w3, Script(w, ref, luck)[3], []);
      }
    }
  }

  lemma RunCons(w: World, e: Event, rest: seq<Event>)
    requires Enabled(w, e)
    ensures Run(w, [e] + rest) == Run(Do(w, e), rest)
    ensures Run(w, [e]) == Some(Do(w, e))
  {
    assert ([e] + rest)[1..] == rest;
  }

  method LoadState(path: Bytes, files: Files, store: Bytes, secret: Bytes, ghost log: Log)
    returns (s: Option<State>, err: Loaded)
    ensures err == LoadFrom(files.disk, store, secret)
    ensures s.Some? <==> err.Fresh?
    ensures s.Some? ==> fresh(s.value) && s.value.files == files
    ensures Enabled(World(path, files.disk, None, log), Load(store, secret))
    ensures s.Some? ==> s.value.View() == Do(World(path, files.disk, None, log), Load(store, secret))
  {
    match files.disk.state
    case None =>
      var st := new State(path, files, store, secret, [], log);
      assert Elems<Bytes>([]) == {};
      return Some(st), Fresh(Process(store, secret, [], {}, Idle));
    case Some(Torn) => return None, Unreadable;
    case Some(Whole(on)) =>
      if on.store != store { return None, OtherStore; }
      if on.secret != [] && secret != [] && on.secret != secret { return None, OtherSecret; }
      var kept := secret;
      if on.secret != [] { kept := on.secret; }
      var st := new State(path, files, store, kept, on.ready, log);
      return Some(st), Fresh(Process(store, kept, on.ready, Elems(on.ready), Idle));
  }
}
