/**
 The process tracker on the heap, as procwatch.c keeps it: `struct process` nodes
 that point at their children, a table from pid to node, and a list of exited
 nodes.  Every method is proved to do to `Model()` what the operation of the
 same name in `ProcessTable` says, and to keep `Valid()`.
 */
module ProcWatch {
  import opened Basics
  import opened ProcessTable
  import opened ProcessForest

  class Process {
    const pid: int
    var ppid: int
    var sid: int
    var children: seq<Process>
    var wstatus: int

    constructor (pid: int, ppid: int, sid: int)
      ensures this.pid == pid && this.ppid == ppid && this.sid == sid && children == [] && wstatus == -1
    {
      this.pid, this.ppid, this.sid, this.children, this.wstatus := pid, ppid, sid, [], -1;
    }

    ghost function AsProc(): (r: Proc)
      reads this
    {
      Proc(ppid, sid, Pids(children), wstatus)
    }
  }

  function Pids(s: seq<Process>): (r: seq<int>)
    ensures |r| == |s| && forall i :: 0 <= i < |s| ==> r[i] == s[i].pid
  {
    seq(|s|, i requires 0 <= i < |s| => s[i].pid)
  }

  lemma {:induction false} RemoveFirstSubset<T>(s: seq<T>, x: T)
    ensures forall y :: y in RemoveFirst(s, x) ==> y in s
  {
    if s != [] {
      RemoveFirstSubset(s[1..], x);
    }
  }

  /** Among nodes that their pids identify, removing a node removes its pid. */
  lemma {:induction false} PidsRemoveFirst(s: seq<Process>, x: Process)
    requires forall y :: y in s && y.pid == x.pid ==> y == x
    ensures Pids(RemoveFirst(s, x)) == RemoveFirst(Pids(s), x.pid)
  {
    if s != [] {
      assert Pids(s)[1..] == Pids(s[1..]);
      PidsRemoveFirst(s[1..], x);
      if s[0] != x {
        assert Pids([s[0]] + RemoveFirst(s[1..], x)) == [s[0].pid] + Pids(RemoveFirst(s[1..], x));
      }
    }
  }

  lemma MinusTwice<V>(m: map<int, V>, a: set<int>, b: set<int>)
    ensures (m - a) - b == m - (a + b)
  {
  }

  lemma InSubtree(t: Table, pid: int, q: int)
    requires q in Subtree(t, pid)
    ensures q in t.procs
  {
  }

  lemma PutThenAppend(t: Table, parent: int, pid: int, p: Proc)
    requires parent in t.procs && parent != pid
    ensures AppendChild(Put(t, pid, p), parent, pid) == Put(AppendChild(t, parent, pid), pid, p)
  {
    assert AppendChild(Put(t, pid, p), parent, pid).procs == Put(AppendChild(t, parent, pid), pid, p).procs;
  }

  predicate In(p: Process, table: map<int, Process>) {
    p.pid in table && table[p.pid] == p
  }

  predicate AllIn(s: seq<Process>, table: map<int, Process>) {
    forall p :: p in s ==> In(p, table)
  }

  /** No pointer leads to a node that another node has replaced in the table. */
  predicate NoneReplaced(s: seq<Process>, table: map<int, Process>) {
    forall p :: p in s && p.pid in table ==> table[p.pid] == p
  }

  class Tracker {
    var processes: map<int, Process>
    var ready: seq<Process>
    var procInit: Process
    var procSelf: Process

    /** The table is indexed by pid and every pointer leads to a node of the table. */
    ghost predicate Shape()
      reads this, processes.Values
    {
      && (forall p :: p in processes ==> processes[p].pid == p && AllIn(processes[p].children, processes))
      && AllIn(ready, processes)
      && In(procInit, processes) && In(procSelf, processes) && procInit.pid == INIT_PID
    }

    /** Like `Shape`, but pointers to nodes no longer in the table are permitted. */
    ghost predicate LooseShape()
      reads this, processes.Values
    {
      && (forall p :: p in processes ==> processes[p].pid == p && NoneReplaced(processes[p].children, processes))
      && NoneReplaced(ready, processes)
      && In(procInit, processes) && procInit.pid == INIT_PID
      && In(procSelf, processes)
    }

    ghost function Model(): (r: Table)
      reads this, processes.Values
    {
      Table(map p | p in processes :: processes[p].AsProc(), Pids(ready), procSelf.pid)
    }

    ghost predicate Valid()
      reads this, processes.Values
    {
      Shape() && Forest(Model())
    }

    /** In a forest every listed pid is in the table, so no pointer dangles. */
    lemma ForestShape()
      requires LooseShape() && Forest(Model())
      ensures Shape()
    {
      var t := Model();
      forall p | p in processes ensures AllIn(processes[p].children, processes) {
        assert GoodChildren(t, p);
        forall c | c in processes[p].children ensures In(c, processes) {
          var i :| 0 <= i < |processes[p].children| && processes[p].children[i] == c;
          assert t.procs[p].children[i] in t.procs[p].children;
        }
      }
      forall c | c in ready ensures In(c, processes) {
        var i :| 0 <= i < |ready| && ready[i] == c;
        assert t.ready[i] in t.ready;
      }
    }

    constructor (self: int, sid: int)
      requires self != INIT_PID
      ensures Valid() && fresh(processes.Values)
      ensures Model() == Initial(self, sid)
    {
      procInit := new Process(INIT_PID, INIT_PID, INIT_PID);
      procSelf := new Process(self, self, sid);
      processes := map[INIT_PID := procInit, self := procSelf];
      ready := [];
      new;
      assert Model().procs == Initial(self, sid).procs;
      InitialForest(self, sid);
    }

    method Get(pid: int) returns (proc: Process?)
      requires Shape()
      ensures proc == null <==> pid !in processes
      ensures proc != null ==> proc == processes[pid] && proc.pid == pid
    {
      if pid in processes {
        proc := processes[pid];
      } else {
        proc := null;
      }
    }

    // ----- the only writes to nodes of the table -----

    method SetPpid(proc: Process, ppid: int)
      requires Shape() && In(proc, processes)
      modifies proc`ppid
      ensures Shape()
      ensures Model() == Put(old(Model()), proc.pid, old(Model()).procs[proc.pid].(ppid := ppid))
    {
      proc.ppid := ppid;
      OnlyNode(proc);
    }

    method SetSid(proc: Process, sid: int)
      requires Shape() && In(proc, processes)
      modifies proc`sid
      ensures Shape()
      ensures Model() == Put(old(Model()), proc.pid, old(Model()).procs[proc.pid].(sid := sid))
    {
      proc.sid := sid;
      OnlyNode(proc);
    }

    method SetWstatus(proc: Process, wstatus: int)
      requires Shape() && In(proc, processes)
      modifies proc`wstatus
      ensures Shape()
      ensures Model() == Put(old(Model()), proc.pid, old(Model()).procs[proc.pid].(wstatus := wstatus))
    {
      proc.wstatus := wstatus;
      OnlyNode(proc);
    }

    method SetChildren(proc: Process, children: seq<Process>)
      requires Shape() && In(proc, processes) && AllIn(children, processes)
      modifies proc`children
      ensures Shape()
      ensures Model() == Put(old(Model()), proc.pid, old(Model()).procs[proc.pid].(children := Pids(children)))
    {
      proc.children := children;
      OnlyNode(proc);
    }

    /** Enters a node without children into the table. */
    method Enter(proc: Process)
      requires Shape() && proc.pid !in processes && proc.children == []
      modifies this`processes
      ensures Shape() && processes == old(processes)[proc.pid := proc]
      ensures Model() == Put(old(Model()), proc.pid, proc.AsProc())
    {
      processes := processes[proc.pid := proc];
      assert Model().procs == Put(old(Model()), proc.pid, proc.AsProc()).procs;
    }

    /** Takes a node out of the table, though others may still point at it. */
    method TakeOut(proc: Process)
      requires LooseShape() && In(proc, processes) && proc != procInit && proc != procSelf
      modifies this`processes
      ensures LooseShape() && processes == old(processes) - {proc.pid}
      ensures Model() == old(Model()).(procs := old(Model()).procs - {proc.pid})
    {
      processes := processes - {proc.pid};
      assert Model().procs == old(Model()).procs - {proc.pid};
    }

    /** Takes the first node off the ready list. */
    method PopReady() returns (proc: Process)
      requires Shape() && ready != []
      modifies this`ready
      ensures Shape() && proc == old(ready)[0] && In(proc, processes)
      ensures Model() == old(Model()).(ready := old(Model()).ready[1..])
    {
      proc := ready[0];
      assert proc in ready;
      ready := ready[1..];
      assert Pids(ready) == old(Model()).ready[1..];
    }

    lemma Loosen()
      requires Shape()
      ensures LooseShape()
    {
    }

    /** A change to one node changes one entry of the model. */
    twostate lemma OnlyNode(proc: Process)
      requires old(Shape()) && In(proc, processes) && unchanged(this)
      requires forall q :: q in processes && processes[q] != proc ==> unchanged(processes[q])
      ensures Model() == Put(old(Model()), proc.pid, proc.AsProc())
    {
      ghost var spec := Put(old(Model()), proc.pid, proc.AsProc());
      forall q | q in processes ensures Model().procs[q] == spec.procs[q] {
        if q != proc.pid {
          assert processes[q] != proc;
        }
      }
      assert Model().procs == spec.procs;
    }

    // ----- operations -----

    method UnparentNode(proc: Process)
      requires Shape() && In(proc, processes)
      modifies set p | p in processes :: processes[p]
      ensures Shape() && unchanged(this)
      ensures Model() == Unparent(old(Model()), proc.pid)
    {
      var parent := Get(proc.ppid);
      if parent != null {
        assert AllIn(processes[proc.ppid].children, processes);
        RemoveFirstSubset(parent.children, proc);
        PidsRemoveFirst(parent.children, proc);
        SetChildren(parent, RemoveFirst(parent.children, proc));
      }
    }

    method MoveFirstNode(parent: Process)
      requires Shape() && In(parent, processes) && parent.children != [] && In(parent.children[0], processes)
      modifies set p | p in processes :: processes[p]
      ensures Shape() && unchanged(this)
      ensures Model() == MoveFirstChild(old(Model()), parent.pid)
    {
      assert AllIn(processes[parent.pid].children, processes);
      var proc := parent.children[0];
      assert In(proc, processes) && Pids(parent.children[1..]) == Pids(parent.children)[1..];
      SetChildren(parent, parent.children[1..]);
      SetPpid(proc, INIT_PID);
      assert AllIn(processes[INIT_PID].children, processes);
      assert Pids(procInit.children + [proc]) == Pids(procInit.children) + [proc.pid];
      SetChildren(procInit, procInit.children + [proc]);
    }

    method ReparentNodeChildren(parent: Process)
      requires Shape() && In(parent, processes) && parent != procInit
      requires GoodChildren(Model(), parent.pid) && parent.ppid != parent.pid
      modifies set p | p in processes :: processes[p]
      ensures Shape() && unchanged(this)
      ensures Model() == ReparentChildren(old(Model()), parent.pid)
    {
      while parent.children != []
        invariant Shape() && unchanged(this)
        invariant GoodChildren(Model(), parent.pid) && Model().procs[parent.pid].ppid != parent.pid
        invariant ReparentChildren(Model(), parent.pid) == ReparentChildren(old(Model()), parent.pid)
        decreases |Model().procs[parent.pid].children|
      {
        MoveFirstChildStep(Model(), parent.pid);
        assert parent.children[0] in processes[parent.pid].children;
        MoveFirstNode(parent);
      }
      NoChildrenToMove(Model(), parent.pid);
    }

    method ExitNode(proc: Process, wstatus: int)
      requires Shape() && In(proc, processes) && proc != procInit && proc.ppid != proc.pid
      requires GoodChildren(Put(Model(), proc.pid, Model().procs[proc.pid].(wstatus := wstatus)), proc.pid)
      modifies this`ready, set p | p in processes :: processes[p]
      ensures Shape() && processes == old(processes)
      ensures Model() == ExitProcess(old(Model()), proc.pid, wstatus)
    {
      hide ReparentChildren, GoodChildren;
      SetWstatus(proc, wstatus);
      ReparentNodeChildren(proc);
      assert Pids(ready + [proc]) == Pids(ready) + [proc.pid];
      label before:
      ready := ready + [proc];
      assert forall p :: p in processes ==> processes[p].children == old@before(processes[p].children);
    }

    method EndProcess(pid: int, wstatus: int) returns (ok: bool)
      requires Valid()
      requires pid in processes ==> !IsRoot(Model(), pid) && pid !in Model().ready
      modifies this`ready, set p | p in processes :: processes[p]
      ensures Valid() && processes == old(processes)
      ensures ok == (pid in processes)
      ensures Model() == if ok then ExitProcess(old(Model()), pid, wstatus) else old(Model())
    {
      var proc := Get(pid);
      if proc == null {
        return false;
      }
      ExitForest(Model(), pid, wstatus);
      NotOwnParent(Model(), pid);
      ExitNode(proc, wstatus);
      ok := true;
    }

    method CollectNode() returns (proc: Process?, outcome: Collected)
      requires Shape() && forall p :: p in Model().ready ==> p in Model().procs && !IsRoot(Model(), p)
      modifies this`processes, this`ready, set p | p in processes :: processes[p]
      ensures LooseShape()
      ensures (Model(), outcome) == Collect(old(Model()))
      ensures processes == old(processes) || exists p :: processes == old(processes) - {p}
      ensures proc != null <==> outcome.Process?
      ensures proc != null ==> outcome.pid in old(processes) && proc == old(processes)[outcome.pid]
      ensures proc != null ==> proc.pid == outcome.pid && proc.AsProc() == outcome.proc
    {
      assert Model().procs.Keys == processes.Keys;
      Loosen();
      if |processes| == 2 {
        return null, NoChildren;
      }
      if ready == [] {
        return null, Again;
      }
      hide Unparent, AllIn, NoneReplaced;
      assert Model().ready[0] in Model().ready;
      proc := PopReady();
      UnparentNode(proc);
      Loosen();
      outcome := Collected.Process(proc.pid, Proc(proc.ppid, proc.sid, Pids(proc.children), proc.wstatus));
      TakeOut(proc);
    }

    /** process_collect; a null result comes with ECHILD or EAGAIN in the second. */
    method CollectProcess() returns (proc: Process?, outcome: Collected)
      requires Valid()
      modifies this`processes, this`ready, set p | p in processes :: processes[p]
      ensures Valid()
      ensures (Model(), outcome) == Collect(old(Model()))
      ensures fresh(processes.Values - old(processes.Values))
      ensures proc != null <==> outcome.Process?
      ensures proc != null ==> outcome.pid in old(processes) && proc == old(processes)[outcome.pid]
      ensures proc != null ==> proc.pid == outcome.pid && proc.AsProc() == outcome.proc
    {
      hide Shape, LooseShape, Forest, Collect;
      CollectForest(Model());
      ForestFacts();
      proc, outcome := CollectNode();
      ForestShape();
    }

    lemma ForestFacts()
      requires Valid()
      ensures Shape() && Forest(Model())
      ensures forall p :: p in Model().ready ==> p in Model().procs && !IsRoot(Model(), p)
    {
    }

    /** process_insert for a process that is in the table: a new parent or session, or a refusal. */
    method UpdateNode(proc: Process, ppid: int, sid: int) returns (ok: bool)
      requires Shape() && In(proc, processes)
      modifies set p | p in processes :: processes[p]
      ensures Shape() && unchanged(this)
      ensures (Model(), ok) == Insert(old(Model()), proc.pid, ppid, sid)
    {
      hide Shape, AppendChild, Unparent;
      InitIn();
      if ppid != 0 && ppid != proc.ppid {
        if ppid != INIT_PID {
          return false;
        }
        UnparentNode(proc);
        AppendNode(procInit, proc);
        SetPpid(proc, INIT_PID);
      }
      if sid != 0 && sid != proc.sid {
        if sid != proc.pid {
          return false;
        }
        SetSid(proc, sid);
      }
      ok := true;
    }

    lemma InitIn()
      requires Shape()
      ensures In(procInit, processes) && procInit.pid == INIT_PID
    {
    }

    /** process_insert for a new process, which needs a parent in the table unless it is its own. */
    method CreateNode(pid: int, ppid: int, sid: int) returns (proc: Process?)
      requires Shape() && pid !in processes
      modifies this`processes, set p | p in processes :: processes[p]
      ensures Shape() && ready == old(ready) && procInit == old(procInit) && procSelf == old(procSelf)
      ensures Model() == Insert(old(Model()), pid, ppid, sid).0
      ensures proc != null <==> Insert(old(Model()), pid, ppid, sid).1
      ensures proc != null ==> fresh(proc) && proc.pid == pid && processes == old(processes)[pid := proc]
      ensures proc == null ==> processes == old(processes)
    {
      hide Shape, AppendChild;
      InitIn();
      var sid' := sid;
      var parent: Process? := null;
      if ppid != pid {
        parent := Get(ppid);
        if parent == null {
          return null;
        }
        if sid' == 0 {
          sid' := parent.sid;
        } else if sid' != parent.sid {
          return null;
        }
      }
      proc := new Process(pid, ppid, sid');
      SameShape();
      if parent != null {
        AddNode(parent, proc);
      } else {
        Enter(proc);
      }
    }

    /** A new object changes nothing. */
    twostate lemma SameShape()
      requires old(Shape()) && unchanged(this) && forall q :: q in processes ==> unchanged(processes[q])
      ensures Shape() && Model() == old(Model())
    {
      forall q | q in processes ensures Model().procs[q] == old(Model()).procs[q] {
      }
      assert Model().procs == old(Model()).procs;
    }

    /** process_insert: the node for `pid`, or null when the arguments are refused. */
    method InsertNode(pid: int, ppid: int, sid: int) returns (proc: Process?)
      requires Shape()
      modifies this`processes, set p | p in processes :: processes[p]
      ensures Shape() && ready == old(ready) && procInit == old(procInit) && procSelf == old(procSelf)
      ensures fresh(processes.Values - old(processes.Values))
      ensures Model() == Insert(old(Model()), pid, ppid, sid).0
      ensures proc != null <==> Insert(old(Model()), pid, ppid, sid).1
      ensures proc != null ==> pid in processes && proc == processes[pid]
    {
      hide Shape, Insert, Tracker.Model;
      proc := Get(pid);
      if proc == null {
        proc := CreateNode(pid, ppid, sid);
      } else {
        var ok := UpdateNode(proc, ppid, sid);
        if !ok {
          proc := null;
        }
      }
    }

    method AppendNode(parent: Process, proc: Process)
      requires Shape() && In(parent, processes) && In(proc, processes)
      modifies parent`children
      ensures Shape()
      ensures Model() == AppendChild(old(Model()), parent.pid, proc.pid)
    {
      assert AllIn(processes[parent.pid].children, processes);
      assert Pids(parent.children + [proc]) == Pids(parent.children) + [proc.pid];
      SetChildren(parent, parent.children + [proc]);
    }

    /** The end of process_insert: puts a new node in the table and lists it under its parent. */
    method AddNode(parent: Process, proc: Process)
      requires Shape() && In(parent, processes) && proc.pid !in processes && proc.children == []
      modifies this`processes, parent`children
      ensures Shape() && processes == old(processes)[proc.pid := proc]
      ensures Model() == Put(AppendChild(old(Model()), parent.pid, proc.pid), proc.pid, proc.AsProc())
    {
      hide Shape;
      Enter(proc);
      AppendNode(parent, proc);
      PutThenAppend(old(Model()), parent.pid, proc.pid, proc.AsProc());
    }

    /** The nodes of `pids` are in the table, with the child lists that `t` gives them. */
    ghost predicate Holds(t: Table, pids: set<int>)
      reads this, processes.Values
    {
      forall q :: q in pids ==> q in t.procs && q in processes && Pids(processes[q].children) == t.procs[q].children
    }

    /** The subtree of `top`, less the part of it that is gone, is as `t` has it, but for the top node itself. */
    ghost predicate Standing(t: Table, top: int, gone: set<int>)
      reads this, processes.Values
    {
      LooseShape() && NoDup(Pids(ready)) && procSelf.pid == t.self && top in processes
      && Holds(t, Subtree(t, top) - gone - {top})
    }

    /** Takes one node out of the table and off the ready list. */
    method RemoveNode(proc: Process)
      requires LooseShape() && NoDup(Pids(ready)) && In(proc, processes) && proc != procInit && proc != procSelf
      modifies this`processes, this`ready
      ensures LooseShape() && NoDup(Pids(ready))
      ensures processes == old(processes) - {proc.pid}
      ensures Pids(ready) == Without(old(Pids(ready)), {proc.pid})
    {
      processes := processes - {proc.pid};
      RemoveFirstIsWithout(Pids(ready), proc.pid);
      RemoveFirstElements(Pids(ready), proc.pid);
      RemoveFirstSubset(ready, proc);
      PidsRemoveFirst(ready, proc);
      ready := RemoveFirst(ready, proc);
    }

    method DropFirstChild(proc: Process, ghost t: Table, ghost k: nat)
      requires Forest(t) && proc.pid in t.procs && !IsRoot(t, proc.pid) && k < |t.procs[proc.pid].children|
      requires Standing(t, proc.pid, ChildSubtrees(t, proc.pid, k)) && In(proc, processes)
      requires Pids(proc.children) == t.procs[proc.pid].children[k..]
      modifies this`processes, this`ready, set q | q in processes && q in Subtree(t, proc.pid) :: processes[q]
      ensures Standing(t, proc.pid, ChildSubtrees(t, proc.pid, k + 1)) && In(proc, processes)
      ensures Pids(proc.children) == t.procs[proc.pid].children[k + 1..]
      ensures processes == old(processes) - Subtree(t, t.procs[proc.pid].children[k])
      ensures Pids(ready) == Without(old(Pids(ready)), Subtree(t, t.procs[proc.pid].children[k]))
      decreases Subtree(t, proc.pid), 0
    {
      NextChild(t, proc.pid, k);
      var child := proc.children[0];
      assert child.pid == t.procs[proc.pid].children[k];
      assert child in processes[proc.pid].children;
      proc.children := proc.children[1..];
      DropRecursive(child, t);
    }

    /**
     process_drop_recursive: removes the node and everything below it, children first.
     `t` is the forest as it was before the drop began.
     */
    method DropRecursive(proc: Process, ghost t: Table)
      requires Forest(t) && proc.pid in t.procs && !IsRoot(t, proc.pid)
      requires Standing(t, proc.pid, {}) && In(proc, processes)
      requires Pids(proc.children) == t.procs[proc.pid].children
      modifies this`processes, this`ready, set q | q in processes && q in Subtree(t, proc.pid) :: processes[q]
      ensures LooseShape() && NoDup(Pids(ready))
      ensures processes == old(processes) - Subtree(t, proc.pid)
      ensures Pids(ready) == Without(old(Pids(ready)), Subtree(t, proc.pid))
      decreases Subtree(t, proc.pid), 1
    {
      ghost var pid := proc.pid;
      SubtreeSplit(t, pid);
      proc.ppid := 0;
      ghost var k := 0;
      WithoutNothing(Pids(ready), {});
      while proc.children != []
        invariant 0 <= k <= |t.procs[pid].children| && Pids(proc.children) == t.procs[pid].children[k..]
        invariant Standing(t, pid, ChildSubtrees(t, pid, k)) && In(proc, processes)
        invariant processes == old(processes) - ChildSubtrees(t, pid, k)
        invariant Pids(ready) == Without(old(Pids(ready)), ChildSubtrees(t, pid, k))
        decreases |t.procs[pid].children| - k
      {
        DropFirstChild(proc, t, k);
        ghost var gone, more := ChildSubtrees(t, pid, k), Subtree(t, t.procs[pid].children[k]);
        WithoutTwice(old(Pids(ready)), gone, more);
        MinusTwice(old(processes), gone, more);
        k := k + 1;
      }
      RemoveNode(proc);
      ghost var gone := ChildSubtrees(t, pid, k);
      WithoutTwice(old(Pids(ready)), gone, {pid});
      MinusTwice(old(processes), gone, {pid});
      assert gone + {pid} == Subtree(t, pid);
    }

    /** process_drop. */
    method DropProcess(pid: int) returns (found: bool)
      requires Valid() && !IsRoot(Model(), pid)
      modifies this`processes, this`ready, set p | p in processes :: processes[p]
      ensures Valid()
      ensures found == (pid in old(processes))
      ensures Model() == Drop(old(Model()), pid)
      ensures fresh(processes.Values - old(processes.Values))
    {
      hide Shape, Forest, Drop;
      ForestFacts();
      ghost var t := Model();
      var proc := Get(pid);
      if proc == null {
        NotDropped(t, pid);
        return false;
      }
      DropForest(t, pid);
      DropNode(proc);
      ForestShape();
      found := true;
    }

    /** Once its top is off its parent's list, a subtree stands as it did. */
    lemma StandsAlone(t: Table, pid: int)
      requires Shape() && Forest(t) && pid in t.procs && !IsRoot(t, pid) && Model() == Unparent(t, pid)
      ensures Standing(t, pid, {}) && pid in processes && Pids(processes[pid].children) == t.procs[pid].children
    {
      hide Subtree, RemoveFirst;
      SubtreeBranch(t, pid);
      assert t.procs.Keys == Model().procs.Keys == processes.Keys;
      forall q | q in t.procs && q != t.procs[pid].ppid ensures Pids(processes[q].children) == t.procs[q].children {
        assert Model().procs[q] == t.procs[q];
      }
      NotOwnParent(t, pid);
      Loosen();
      forall q | q in Subtree(t, pid) - {} - {pid}
        ensures q in t.procs && q in processes && Pids(processes[q].children) == t.procs[q].children
      {
        InSubtree(t, pid, q);
      }
      assert Holds(t, Subtree(t, pid) - {} - {pid});
      assert Pids(ready) == t.ready;
    }

    /** What is left of the model when only table entries and ready nodes were removed. */
    twostate lemma OnlyRemoved(gone: set<int>)
      requires processes == old(processes) - gone && Pids(ready) == Without(old(Pids(ready)), gone)
      requires procSelf == old(procSelf) && forall q :: q in processes ==> unchanged(processes[q])
      ensures Model() == Forget(old(Model()), gone)
    {
      forall q | q in processes ensures Model().procs[q] == old(Model()).procs[q] {
      }
      assert Model().procs == old(Model()).procs - gone;
    }

    lemma NotDropped(t: Table, pid: int)
      requires t == Model() && pid !in processes
      ensures Drop(t, pid) == t
    {
    }

    method DropNode(proc: Process)
      requires Shape() && Forest(Model()) && In(proc, processes) && !IsRoot(Model(), proc.pid)
      modifies this`processes, this`ready, set p | p in processes :: processes[p]
      ensures LooseShape()
      ensures Model() == Drop(old(Model()), proc.pid)
      ensures fresh(processes.Values - old(processes.Values))
    {
      hide Subtree, Unparent, Shape, Forest, Standing, LooseShape;
      ghost var t := Model();
      UnparentNode(proc);
      StandsAlone(t, proc.pid);
      label before:
      DropRecursive(proc, t);
      OnlyRemoved@before(Subtree(t, proc.pid));
    }

    /** A process starts a session, and is dropped if the callback says so. */
    method IngestSetsid(pid: int, drop: bool)
      requires Valid() && !IsRoot(Model(), pid)
      modifies this`processes, this`ready, set p | p in processes :: processes[p]
      ensures Valid()
      ensures Model() == Ingest(old(Model()), Setsid(pid), drop)
      ensures fresh(processes.Values - old(processes.Values))
    {
      hide Shape, Forest, Insert, Drop, Tracker.Model;
      ghost var t := Model();
      ForestFacts();
      InitTracked();
      if pid in processes {
        SetsidForest(t, pid);
        SetsidAccepted(t, pid);
        var proc := InsertNode(pid, 0, pid);
        if drop {
          var _ := DropProcess(pid);
        }
      }
    }

    method IngestFork(parent: int, child: int, tid: int)
      requires Valid() && parent !in Model().ready
      modifies this`processes, set p | p in processes :: processes[p]
      ensures Valid()
      ensures Model() == Ingest(old(Model()), Fork(parent, child, tid), false)
      ensures fresh(processes.Values - old(processes.Values))
    {
      hide Shape, Forest, Insert;
      ghost var t := Model();
      ForestFacts();
      InitTracked();
      ApplyForest(t, Handle(Fork(parent, child, tid), false));
      if parent in processes && child == tid && parent != INIT_PID {
        var _ := InsertNode(child, parent, 0);
      }
    }

    /** procwatch_ingest for one received event; `drop` is the callback's answer. */
    method IngestEvent(ev: Event, drop: bool)
      requires Valid() && WellFormed(Model(), ev, drop)
      modifies this`processes, this`ready, set p | p in processes :: processes[p]
      ensures Valid()
      ensures Model() == Ingest(old(Model()), ev, drop)
      ensures fresh(processes.Values - old(processes.Values))
    {
      hide Valid, Insert, Drop, ExitProcess;
      InitTracked();
      match ev {
        case Fork(parent, child, tid) => IngestFork(parent, child, tid);
        case Exec(pid) =>
          if pid in processes && drop {
            var _ := DropProcess(pid);
          }
        case Setsid(pid) => IngestSetsid(pid, drop);
        case Exit(pid, code, last) =>
          if pid in processes && last {
            var _ := EndProcess(pid, code);
          }
        case Ack =>
        case Other(_) =>
      }
    }

    lemma InitTracked()
      requires Valid()
      ensures INIT_PID in Model().procs && Model().procs.Keys == processes.Keys
    {
    }
  }

  /** A process can always start a session of its own. */
  lemma SetsidAccepted(t: Table, pid: int)
    requires INIT_PID in t.procs && pid in t.procs
    ensures Insert(t, pid, 0, pid).1 && Insert(t, pid, 0, pid).0.self == t.self
  {
  }
}
