/** sampler/tree.go, treePids: the pids of a process tree, walked from one snapshot of
    the process table. */
module ProcessTree {
  import opened Sums
  import opened Options

  /** One line of the table that parsed. */
  datatype Row = Row(pid: int, ppid: int)

  /** The pids whose parent is `p`, in table order, repeats kept. */
  function Under(rows: seq<Row>, p: int): seq<int> {
    if rows == [] then []
    else Under(rows[..|rows| - 1], p) + (if rows[|rows| - 1].ppid == p then [rows[|rows| - 1].pid] else [])
  }

  lemma {:induction false} UnderIsParent(rows: seq<Row>, p: int, c: int)
    ensures c in Under(rows, p) <==> Row(c, p) in rows
  {
    if rows != [] {
      UnderIsParent(rows[..|rows| - 1], p, c);
      assert rows == rows[..|rows| - 1] + [rows[|rows| - 1]];
    }
  }

  function At(m: map<int, seq<int>>, p: int): seq<int> {
    if p in m then m[p] else []
  }

  method ChildrenOf(rows: seq<Row>) returns (children: map<int, seq<int>>)
    ensures forall p :: At(children, p) == Under(rows, p)
  {
    children := map[];
    for i := 0 to |rows|
      invariant forall p :: At(children, p) == Under(rows[..i], p)
    {
      assert rows[..i + 1][..i] == rows[..i];
      children := children[rows[i].ppid := At(children, rows[i].ppid) + [rows[i].pid]];
    }
    assert rows[..|rows|] == rows;
  }

  // ----- reachability

  ghost predicate Chain(rows: seq<Row>, path: seq<int>) {
    path != [] && forall i :: 0 < i < |path| ==> Row(path[i], path[i - 1]) in rows
  }

  /** A chain of parent links leads from `root` down to `x`. */
  ghost predicate Reachable(rows: seq<Row>, root: int, x: int) {
    exists path :: Chain(rows, path) && path[0] == root && path[|path| - 1] == x
  }

  lemma RootIsReachable(rows: seq<Row>, root: int)
    ensures Reachable(rows, root, root)
  {
    assert Chain(rows, [root]);
  }

  lemma ChildIsReachable(rows: seq<Row>, root: int, p: int, c: int)
    requires Reachable(rows, root, p) && Row(c, p) in rows
    ensures Reachable(rows, root, c)
  {
    var path :| Chain(rows, path) && path[0] == root && path[|path| - 1] == p;
    assert Chain(rows, path + [c]);
  }

  lemma {:induction false} ClosedHoldsThePath(rows: seq<Row>, closed: set<int>, path: seq<int>)
    requires Chain(rows, path) && path[0] in closed
    requires forall r :: r in rows && r.ppid in closed ==> r.pid in closed
    ensures path[|path| - 1] in closed
    decreases |path|
  {
    if |path| > 1 {
      assert Row(path[1], path[0]) in rows;
      ClosedHoldsThePath(rows, closed, path[1..]);
    }
  }

  // ----- the walk

  ghost function Universe(rows: seq<Row>, root: int): set<int> {
    {root} + set r | r in rows :: r.pid
  }

  /** `x` is the root, or one of its parents has been taken. */
  ghost predicate Justified(rows: seq<Row>, root: int, pids: seq<int>, x: int) {
    x == root || exists p :: p in pids && Row(x, p) in rows
  }

  ghost predicate Listed(seen: set<int>, pids: seq<int>) {
    Distinct(pids) && forall x :: x in seen <==> x in pids
  }

  /** Everything taken or waiting is in the tree. */
  ghost predicate Sound(rows: seq<Row>, root: int, seen: set<int>, queue: seq<int>) {
    && (forall x :: x in seen ==> Reachable(rows, root, x))
    && (forall x :: x in queue ==> Reachable(rows, root, x) && x in Universe(rows, root))
  }

  /** Every child of a taken pid is taken or waiting. */
  ghost predicate Complete(rows: seq<Row>, root: int, seen: set<int>, queue: seq<int>) {
    && (root in seen || root in queue)
    && (forall r :: r in rows && r.ppid in seen ==> r.pid in seen || r.pid in queue)
  }

  ghost predicate Ordered(rows: seq<Row>, root: int, pids: seq<int>, queue: seq<int>) {
    && (forall x :: x in queue ==> Justified(rows, root, pids, x))
    && (forall i :: 0 <= i < |pids| ==> Justified(rows, root, pids[..i], pids[i]))
  }

  ghost predicate WalkInv(rows: seq<Row>, root: int, seen: set<int>, pids: seq<int>, queue: seq<int>) {
    Listed(seen, pids) && Sound(rows, root, seen, queue) && Complete(rows, root, seen, queue) && Ordered(rows, root, pids, queue)
  }

  lemma LastOf(queue: seq<int>)
    requires queue != []
    ensures forall x :: x in queue <==> x in queue[..|queue| - 1] || x == queue[|queue| - 1]
  {
    assert queue == queue[..|queue| - 1] + [queue[|queue| - 1]];
  }

  lemma Skip(rows: seq<Row>, root: int, seen: set<int>, pids: seq<int>, queue: seq<int>)
    requires WalkInv(rows, root, seen, pids, queue)
    requires queue != [] && queue[|queue| - 1] in seen
    ensures WalkInv(rows, root, seen, pids, queue[..|queue| - 1])
  {
    hide Reachable, Justified, Universe;
    LastOf(queue);
  }

  lemma TakeSound(rows: seq<Row>, root: int, seen: set<int>, rest: seq<int>, pid: int)
    requires Sound(rows, root, seen, rest) && Reachable(rows, root, pid)
    ensures Sound(rows, root, seen + {pid}, rest + Under(rows, pid))
  {
    forall x | x in Under(rows, pid) ensures Reachable(rows, root, x) && x in Universe(rows, root) {
      UnderIsParent(rows, pid, x);
      ChildIsReachable(rows, root, pid, x);
    }
  }

  lemma TakeComplete(rows: seq<Row>, root: int, seen: set<int>, rest: seq<int>, pid: int)
    requires Complete(rows, root, seen, rest + [pid])
    ensures Complete(rows, root, seen + {pid}, rest + Under(rows, pid))
  {
    forall r | r in rows && r.ppid in seen + {pid} ensures r.pid in seen + {pid} || r.pid in rest + Under(rows, pid) {
      UnderIsParent(rows, pid, r.pid);
      assert r == Row(r.pid, r.ppid);
    }
  }

  lemma StillJustified(rows: seq<Row>, root: int, pids: seq<int>, pid: int, x: int)
    requires Justified(rows, root, pids, x)
    ensures Justified(rows, root, pids + [pid], x)
  {
    if x != root {
      var p :| p in pids && Row(x, p) in rows;
      assert p in pids + [pid];
    }
  }

  lemma TakeOrdered(rows: seq<Row>, root: int, pids: seq<int>, rest: seq<int>, pid: int)
    requires Ordered(rows, root, pids, rest) && Justified(rows, root, pids, pid)
    ensures Ordered(rows, root, pids + [pid], rest + Under(rows, pid))
  {
    forall x | x in rest + Under(rows, pid) ensures Justified(rows, root, pids + [pid], x) {
      if x in rest {
        StillJustified(rows, root, pids, pid, x);
      } else {
        UnderIsParent(rows, pid, x);
        assert pid in pids + [pid];
      }
    }
    forall i | 0 <= i < |pids + [pid]| ensures Justified(rows, root, (pids + [pid])[..i], (pids + [pid])[i]) {
      assert (pids + [pid])[..i] == pids[..i];
      assert pids[..|pids|] == pids;
    }
  }

  lemma Take(rows: seq<Row>, root: int, seen: set<int>, pids: seq<int>, queue: seq<int>)
    requires WalkInv(rows, root, seen, pids, queue)
    requires queue != [] && queue[|queue| - 1] !in seen
    ensures var pid := queue[|queue| - 1];
            && WalkInv(rows, root, seen + {pid}, pids + [pid], queue[..|queue| - 1] + Under(rows, pid))
            && pid in Universe(rows, root)
  {
    hide Reachable, Justified, Universe, Complete;
    var pid, rest := queue[|queue| - 1], queue[..|queue| - 1];
    LastOf(queue);
    assert queue == rest + [pid];
    TakeSound(rows, root, seen, rest, pid);
    TakeComplete(rows, root, seen, rest, pid);
    TakeOrdered(rows, root, pids, rest, pid);
  }

  lemma Finished(rows: seq<Row>, root: int, seen: set<int>, pids: seq<int>)
    requires WalkInv(rows, root, seen, pids, [])
    ensures Distinct(pids) && forall i :: 0 <= i < |pids| ==> Justified(rows, root, pids[..i], pids[i])
    ensures forall x :: x in pids <==> Reachable(rows, root, x)
  {
    forall x | Reachable(rows, root, x) ensures x in pids {
      var path :| Chain(rows, path) && path[0] == root && path[|path| - 1] == x;
      ClosedHoldsThePath(rows, seen, path);
    }
  }

  lemma FewerUnseen(all: set<int>, seen: set<int>, pid: int)
    requires pid in all && pid !in seen
    ensures |all - (seen + {pid})| < |all - seen|
  {
    assert all - (seen + {pid}) == (all - seen) - {pid};
  }

  /** Whatever the table says, cycles and repeated lines included, the walk ends with
      every pid the root leads to, once each, the root first and every other after one
      of its parents. When the table could not be read there is nothing. */
  method TreePids(table: Option<seq<Row>>, root: int) returns (pids: seq<int>)
    ensures table.None? ==> pids == []
    ensures table.Some? ==>
              && Distinct(pids) && (forall x :: x in pids <==> Reachable(table.value, root, x))
              && forall i :: 0 <= i < |pids| ==> Justified(table.value, root, pids[..i], pids[i])
  {
    if table.None? { return []; }
    var rows := table.value;
    var children := ChildrenOf(rows);
    var seen, queue := {}, [root];
    pids := [];
    RootIsReachable(rows, root);
    assert WalkInv(rows, root, seen, pids, queue);
    hide WalkInv, Reachable, Justified, Universe, Under, Distinct;
    while |queue| > 0
      invariant WalkInv(rows, root, seen, pids, queue)
      decreases |Universe(rows, root) - seen|, |queue|
    {
      var pid := queue[|queue| - 1];
      if pid in seen {
        Skip(rows, root, seen, pids, queue);
        queue := queue[..|queue| - 1];
        continue;
      }
      Take(rows, root, seen, pids, queue);
      FewerUnseen(Universe(rows, root), seen, pid);
      queue := queue[..|queue| - 1];
      seen := seen + {pid};
      pids := pids + [pid];
      queue := queue + At(children, pid);
    }
    Finished(rows, root, seen, pids);
  }

  /** Exactly the processes whose chain of parents leads to the root are counted, so a
      process outside the tree is never charged to it. */
  lemma StrangersStayOut(rows: seq<Row>, root: int, tree: set<int>, x: int)
    requires root in tree && x !in tree
    requires forall r :: r in rows && r.ppid in tree ==> r.pid in tree
    ensures !Reachable(rows, root, x)
  {
    forall path | Chain(rows, path) && path[0] == root && path[|path| - 1] == x ensures false {
      ClosedHoldsThePath(rows, tree, path);
    }
  }
}
