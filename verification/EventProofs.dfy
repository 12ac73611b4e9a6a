/**
 What each event does to the tracker, said entry by entry of the table: who is recorded under whom,
 in which session and with which status, and what stays as it was.
 */
module EventProofs {
  import opened Basics
  import opened ProcessTable
  import opened ProcessForest

  /** Entries other than these are the same. */
  ghost predicate SameBut(t: Table, u: Table, changed: set<int>) {
    forall q :: q in t.procs && q !in changed ==> q in u.procs && u.procs[q] == t.procs[q]
  }

  // ----- fork -----

  /** A fork that is recorded: by a tracked process other than init, of a whole process that is not known yet. */
  predicate Recorded(t: Table, parent: int, child: int, tid: int) {
    parent in t.procs && parent != INIT_PID && child == tid && child !in t.procs
  }

  /** A new process is recorded under the process that forked it, last in its list, in its session, and running. */
  lemma ForkIsExact(t: Table, parent: int, child: int, tid: int, drop: bool)
    requires Forest(t) && parent !in t.ready
    ensures var u := Ingest(t, Fork(parent, child, tid), drop);
      if !Recorded(t, parent, child, tid) then u == t
      else
        && u.procs.Keys == t.procs.Keys + {child}
        && u.procs[child] == Proc(parent, t.procs[parent].sid, [], -1)
        && u.procs[parent] == t.procs[parent].(children := t.procs[parent].children + [child])
        && SameBut(t, u, {parent}) && u.ready == t.ready && u.self == t.self
  {
    if parent in t.procs && parent != INIT_PID {
      InsertForest(t, child, parent);
    }
  }

  /** A new leaf changes no chain of parents. */
  lemma {:induction false} AncestorsStay(t: Table, u: Table, child: int, q: int, n: nat)
    requires child !in t.procs && child in u.procs && q != child
    requires forall p :: p in t.procs ==> p in u.procs && u.procs[p].ppid == t.procs[p].ppid
    requires u.procs.Keys == t.procs.Keys + {child}
    requires forall p :: p in t.procs ==> t.procs[p].ppid != child
    ensures Ancestor(u, q, n) == Ancestor(t, q, n) && Ancestor(t, q, n) != child
    decreases n
  {
    if n > 0 && q in t.procs {
      AncestorsStay(t, u, child, t.procs[q].ppid, n - 1);
    }
  }

  /** The new process descends from exactly the processes its parent descends from, and from itself. */
  lemma ForkDescends(t: Table, parent: int, child: int, q: int, p: int)
    requires Forest(t) && parent !in t.ready && Recorded(t, parent, child, child) && q in t.procs && p != child
    ensures var u := Ingest(t, Fork(parent, child, child), false);
      && (Descends(u, q, p) <==> Descends(t, q, p))
      && (Descends(u, child, p) <==> Descends(t, parent, p))
  {
    var u := Ingest(t, Fork(parent, child, child), false);
    ForkIsExact(t, parent, child, child, false);
    forall r | r in t.procs ensures t.procs[r].ppid != child {
      assert GoodParent(t, r);
    }
    hide Ingest, Forest;
    forall n: nat ensures Ancestor(u, q, n) == Ancestor(t, q, n) {
      AncestorsStay(t, u, child, q, n);
    }
    forall n: nat ensures Ancestor(u, parent, n) == Ancestor(t, parent, n) {
      AncestorsStay(t, u, child, parent, n);
    }
    DescendsStep(u, child, p);
    SameDescent(t, u, q, p);
    SameDescent(t, u, parent, p);
  }

  lemma SameDescent(t: Table, u: Table, q: int, p: int)
    requires forall n: nat :: Ancestor(u, q, n) == Ancestor(t, q, n)
    ensures Descends(u, q, p) <==> Descends(t, q, p)
  {
    if Descends(u, q, p) {
      var n: nat :| Ancestor(u, q, n) == p;
      assert Ancestor(t, q, n) == p;
    }
    if Descends(t, q, p) {
      var n: nat :| Ancestor(t, q, n) == p;
      assert Ancestor(u, q, n) == p;
    }
  }

  /** So a later drop takes the new process along exactly if it takes the process that forked it. */
  lemma ForkSubtrees(t: Table, parent: int, child: int, p: int)
    requires Forest(t) && parent !in t.ready && Recorded(t, parent, child, child) && p in t.procs
    ensures var u := Ingest(t, Fork(parent, child, child), false);
      Subtree(u, p) == Subtree(t, p) + (if parent in Subtree(t, p) then {child} else {})
  {
    var u := Ingest(t, Fork(parent, child, child), false);
    ForkIsExact(t, parent, child, child, false);
    hide Ingest, Forest;
    forall q | q in u.procs
      ensures q in Subtree(u, p) <==> q in Subtree(t, p) || (q == child && parent in Subtree(t, p))
    {
      ForkDescends(t, parent, child, if q == child then parent else q, p);
    }
  }

  // ----- insertion -----

  /**
   A new process is accepted if it is a root or its parent is known and its session, if it is given,
   is the parent's.
   */
  lemma InsertNew(t: Table, pid: int, ppid: int, sid: int)
    requires INIT_PID in t.procs && pid !in t.procs
    ensures var (u, ok) := Insert(t, pid, ppid, sid);
      && (ok <==> ppid == pid || (ppid in t.procs && (sid == 0 || sid == t.procs[ppid].sid)))
      && (!ok ==> u == t)
      && (ok ==>
            && u.procs.Keys == t.procs.Keys + {pid} && u.ready == t.ready && u.self == t.self
            && u.procs[pid] == Proc(ppid, if ppid == pid then sid else t.procs[ppid].sid, [], -1)
            && SameBut(t, u, {ppid})
            && (ppid != pid ==> u.procs[ppid] == t.procs[ppid].(children := t.procs[ppid].children + [pid])))
  {
  }

  /**
   A known process may only move under init and into a session of its own.  It is then the last
   child of init and no longer one of its former parent; a wrong session is refused after the move.
   */
  lemma InsertKnown(t: Table, pid: int, ppid: int, sid: int)
    requires Forest(t) && pid in t.procs && !IsRoot(t, pid)
    ensures var (u, ok) := Insert(t, pid, ppid, sid);
      var p := t.procs[pid];
      var strayed := ppid !in {0, p.ppid, INIT_PID};
      var moves := ppid == INIT_PID && p.ppid != INIT_PID;
      && (ok <==> !strayed && sid in {0, p.sid, pid})
      && u.procs.Keys == t.procs.Keys && u.ready == t.ready && u.self == t.self
      && u.procs[pid] == p.(ppid := if moves then INIT_PID else p.ppid,
                            sid := if !strayed && sid == pid && sid != 0 then pid else p.sid)
      && SameBut(t, u, {pid} + if moves then {p.ppid, INIT_PID} else {})
      && (moves ==>
            && p.ppid in t.procs
            && u.procs[INIT_PID] == t.procs[INIT_PID].(children := t.procs[INIT_PID].children + [pid])
            && u.procs[p.ppid] == t.procs[p.ppid].(children := Without(t.procs[p.ppid].children, {pid})))
  {
    assert GoodParent(t, pid);
    var parent := t.procs[pid].ppid;
    assert GoodChildren(t, parent);
    RemoveFirstIsWithout(t.procs[parent].children, pid);
    var rank :| Ranked(t, rank);
    assert GoodRank(t, rank, pid) && parent != pid;
    hide Forest, Without, RemoveFirst;
  }

  // ----- session, exit, collection -----

  /** A process that starts a session keeps its place; if it is dropped, its descendants go with it. */
  lemma SetsidIsExact(t: Table, pid: int, drop: bool)
    requires Forest(t) && !IsRoot(t, pid)
    ensures var u := Ingest(t, Setsid(pid), drop);
      if pid !in t.procs then u == t
      else if !drop then
        && u.procs.Keys == t.procs.Keys && u.ready == t.ready && u.self == t.self
        && SameBut(t, u, {pid})
        && u.procs[pid] == t.procs[pid].(sid := if pid == 0 then t.procs[pid].sid else pid)
      else
        && u.procs.Keys == t.procs.Keys - Subtree(t, pid)
        && u.ready == Without(t.ready, Subtree(t, pid)) && u.self == t.self
  {
    if pid in t.procs {
      var v := Insert(t, pid, 0, pid).0;
      SetsidForest(t, pid);
      assert forall q :: q in t.procs ==> q in v.procs && v.procs[q].ppid == t.procs[q].ppid;
      if drop {
        DropIsExact(v, pid);
        SubtreeByParents(t, v, pid);
      }
    }
  }

  /** Descent depends on the parents alone. */
  lemma SubtreeByParents(t: Table, u: Table, pid: int)
    requires u.procs.Keys == t.procs.Keys && forall q :: q in t.procs ==> u.procs[q].ppid == t.procs[q].ppid
    ensures Subtree(u, pid) == Subtree(t, pid)
  {
    forall q, n: nat ensures Ancestor(u, q, n) == Ancestor(t, q, n) {
      AncestorByParents(t, u, q, n);
    }
    forall q | q in t.procs ensures Descends(u, q, pid) <==> Descends(t, q, pid) {
      SameDescent(t, u, q, pid);
    }
  }

  lemma {:induction false} AncestorByParents(t: Table, u: Table, q: int, n: nat)
    requires u.procs.Keys == t.procs.Keys && forall p :: p in t.procs ==> u.procs[p].ppid == t.procs[p].ppid
    ensures Ancestor(u, q, n) == Ancestor(t, q, n)
    decreases n
  {
    if n > 0 && q in t.procs {
      AncestorByParents(t, u, t.procs[q].ppid, n - 1);
    }
  }

  /** An exit sets the status, queues the process last, and gives its children, in order, to init. */
  lemma ExitIsExact(t: Table, pid: int, code: int, last: bool, drop: bool)
    requires Forest(t) && !IsRoot(t, pid) && pid !in t.ready
    ensures var u := Ingest(t, Exit(pid, code, last), drop);
      if pid !in t.procs || !last then u == t
      else
        var left := t.procs[pid].children;
        && u.procs.Keys == t.procs.Keys && u.ready == t.ready + [pid] && u.self == t.self
        && u.procs[pid] == t.procs[pid].(children := [], wstatus := code)
        && u.procs[INIT_PID] == t.procs[INIT_PID].(children := t.procs[INIT_PID].children + left)
        && (forall q :: q in left ==> q in t.procs && u.procs[q] == t.procs[q].(ppid := INIT_PID))
        && (forall q :: q in t.procs && q != pid && q != INIT_PID && q !in left ==> u.procs[q] == t.procs[q])
  {
    if pid in t.procs {
      NotOwnParent(t, pid);
      assert GoodChildren(t, pid);
    }
  }

  /** Executing a program and all other events change nothing, unless the callback has a process dropped. */
  lemma RestIsExact(t: Table, ev: Event, drop: bool)
    requires Forest(t) && WellFormed(t, ev, drop) && (ev.Ack? || ev.Other? || ev.Exec?)
    ensures var u := Ingest(t, ev, drop);
      if !ev.Exec? || !drop || ev.pid !in t.procs then u == t
      else u.procs.Keys == t.procs.Keys - Subtree(t, ev.pid) && u.ready == Without(t.ready, Subtree(t, ev.pid))
  {
    if ev.Exec? && drop && ev.pid in t.procs {
      DropIsExact(t, ev.pid);
    }
  }

  /** Collecting takes the first of the queue out of the table and out of its parent's list, and hands it out. */
  lemma CollectIsExact(t: Table)
    requires Forest(t)
    ensures var (u, out) := Collect(t);
      if Tracked(t) == {} then u == t && out == NoChildren
      else if t.ready == [] then u == t && out == Again
      else
        var pid := t.ready[0];
        && out.Process? && out.pid == pid && out.proc == t.procs[pid]
        && u.procs.Keys == t.procs.Keys - {pid} && u.ready == t.ready[1..] && u.self == t.self
        && (forall q :: q in u.procs ==>
              u.procs[q] == t.procs[q].(children := Without(t.procs[q].children, {pid})))
  {
    assert t.procs.Keys == Tracked(t) + {INIT_PID, t.self};
    assert |{INIT_PID, t.self}| == 2;
    if t.ready != [] {
      var pid := t.ready[0];
      assert pid in t.ready;
      NotOwnParent(t, pid);
      LeafSubtree(t, pid);
      DropIsExact(t, pid);
      CollectIsForget(t);
      hide Subtree, Forest;
      WithoutFirst(t.ready);
    }
  }

  lemma WithoutFirst(s: seq<int>)
    requires s != [] && NoDup(s)
    ensures Without(s, {s[0]}) == s[1..]
  {
    WithoutNothing(s[1..], {s[0]});
  }

  /** A process without children has no descendants. */
  lemma LeafSubtree(t: Table, pid: int)
    requires Forest(t) && pid in t.procs && !IsRoot(t, pid) && t.procs[pid].children == []
    ensures Subtree(t, pid) == {pid}
  {
    SubtreeSplit(t, pid);
  }
}
