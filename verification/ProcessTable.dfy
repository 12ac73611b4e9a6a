/**
 The process tracker of procwatch.c as a value: the table of tracked processes,
 their child lists, and the queue of exited processes waiting to be collected,
 together with what each tracker operation does to it.

 `ProcWatch` holds the heap implementation, which is proved to do exactly this.
 */
module ProcessTable {
  import opened Basics

  const INIT_PID: int := 1

  /** The fields of `struct process`, the child list given by the children's pids. */
  datatype Proc = Proc(ppid: int, sid: int, children: seq<int>, wstatus: int)

  /** The hash table of processes, the ready list, and the tracker's own pid. */
  datatype Table = Table(procs: map<int, Proc>, ready: seq<int>, self: int)

  predicate IsRoot(t: Table, pid: int) {
    pid == INIT_PID || pid == t.self
  }

  /** What the kernel reports; `last` on an exit says that its signal field was SIGCHLD. */
  datatype Event =
    | Ack
    | Fork(parent: int, child: int, childTid: int)
    | Exec(pid: int)
    | Setsid(pid: int)
    | Exit(pid: int, code: int, last: bool)
    | Other(pid: int)

  datatype Collected = Process(pid: int, proc: Proc) | Again | NoChildren

  // ----- list helpers -----

  /** Removes the first occurrence of `x`, as list_get followed by list_remove does. */
  function RemoveFirst<T(==)>(s: seq<T>, x: T): (r: seq<T>) {
    if s == [] then [] else if s[0] == x then s[1..] else [s[0]] + RemoveFirst(s[1..], x)
  }

  /** Keeps the elements that are not in `gone`, in order. */
  function Without(s: seq<int>, gone: set<int>): (r: seq<int>) {
    if s == [] then [] else if s[0] in gone then Without(s[1..], gone) else [s[0]] + Without(s[1..], gone)
  }

  // ----- operations -----

  function Initial(self: int, sid: int): (t: Table) {
    Table(map[INIT_PID := Proc(INIT_PID, INIT_PID, [], -1), self := Proc(self, sid, [], -1)], [], self)
  }

  /** The table with one node overwritten. */
  function Put(t: Table, pid: int, p: Proc): (r: Table) {
    t.(procs := t.procs[pid := p])
  }

  function Unparent(t: Table, pid: int): (r: Table)
    requires pid in t.procs
  {
    var parent := t.procs[pid].ppid;
    if parent !in t.procs then t
    else Put(t, parent, t.procs[parent].(children := RemoveFirst(t.procs[parent].children, pid)))
  }

  function AppendChild(t: Table, parent: int, pid: int): (r: Table)
    requires parent in t.procs
  {
    Put(t, parent, t.procs[parent].(children := t.procs[parent].children + [pid]))
  }

  /** Moves the process under init, at the end of its child list. */
  function ReparentToInit(t: Table, pid: int): (r: Table)
    requires pid in t.procs && INIT_PID in t.procs
  {
    var u := AppendChild(Unparent(t, pid), INIT_PID, pid);
    Put(u, pid, u.procs[pid].(ppid := INIT_PID))
  }

  /** process_insert: adds a process, or updates the parent or session of one already there. */
  function Insert(t: Table, pid: int, ppid: int, sid: int): (r: (Table, bool))
    requires INIT_PID in t.procs
  {
    if pid in t.procs then
      if ppid != 0 && ppid != t.procs[pid].ppid && ppid != INIT_PID then (t, false)
      else
        var u := if ppid != 0 && ppid != t.procs[pid].ppid then ReparentToInit(t, pid) else t;
        if sid != 0 && sid != u.procs[pid].sid then
          if sid != pid then (u, false)
          else (Put(u, pid, u.procs[pid].(sid := sid)), true)
        else (u, true)
    else if ppid == pid then
      (Put(t, pid, Proc(ppid, sid, [], -1)), true)
    else if ppid !in t.procs || (sid != 0 && sid != t.procs[ppid].sid) then (t, false)
    else
      (Put(AppendChild(t, ppid, pid), pid, Proc(ppid, t.procs[ppid].sid, [], -1)), true)
  }

  /** Gives all children of `pid` to init. */
  function ReparentChildren(t: Table, pid: int): (r: Table)
    requires pid in t.procs && INIT_PID in t.procs && pid != INIT_PID
  {
    var moved := t.procs[pid].children;
    t.(procs := map q | q in t.procs ::
         var p := t.procs[q];
         var parented := if q in moved then p.(ppid := INIT_PID) else p;
         if q == pid then parented.(children := [])
         else if q == INIT_PID then parented.(children := p.children + moved)
         else parented)
  }

  function ExitProcess(t: Table, pid: int, code: int): (r: Table)
    requires pid in t.procs && INIT_PID in t.procs && pid != INIT_PID
  {
    var v := ReparentChildren(Put(t, pid, t.procs[pid].(wstatus := code)), pid);
    v.(ready := v.ready + [pid])
  }

  function Collect(t: Table): (r: (Table, Collected))
    requires forall p :: p in t.ready ==> p in t.procs
  {
    if |t.procs| == 2 then (t, NoChildren)
    else if t.ready == [] then (t, Again)
    else
      var pid := t.ready[0];
      var u := Unparent(t.(ready := t.ready[1..]), pid);
      (u.(procs := u.procs - {pid}), Process(pid, u.procs[pid]))
  }

  /** The n-th ancestor of a process along parent links. */
  function Ancestor(t: Table, pid: int, n: nat): (r: int)
    decreases n
  {
    if n == 0 || pid !in t.procs then pid else Ancestor(t, t.procs[pid].ppid, n - 1)
  }

  ghost predicate Descends(t: Table, q: int, p: int) {
    exists n: nat :: Ancestor(t, q, n) == p
  }

  /** The process together with its current descendants. */
  ghost function Subtree(t: Table, pid: int): (r: set<int>) {
    set q | q in t.procs && Descends(t, q, pid)
  }

  /** The table with some processes forgotten. */
  function Forget(t: Table, gone: set<int>): (r: Table) {
    Table(t.procs - gone, Without(t.ready, gone), t.self)
  }

  /** process_drop: stops tracking a process and everything below it. */
  ghost function Drop(t: Table, pid: int): (r: Table) {
    if pid !in t.procs then t else Forget(Unparent(t, pid), Subtree(t, pid))
  }

  /** procwatch_ingest for one event; `drop` is the callback's answer. */
  ghost function Ingest(t: Table, ev: Event, drop: bool): (r: Table)
    requires INIT_PID in t.procs
    requires ev.Exit? ==> ev.pid != INIT_PID
  {
    match ev
    case Ack => t
    case Fork(parent, child, tid) =>
      if parent !in t.procs || child != tid || parent == INIT_PID then t
      else Insert(t, child, parent, 0).0
    case Exec(pid) => if pid in t.procs && drop then Drop(t, pid) else t
    case Setsid(pid) =>
      if pid !in t.procs then t
      else
        var u := Insert(t, pid, 0, pid).0;
        if drop then Drop(u, pid) else u
    case Exit(pid, code, last) =>
      if pid !in t.procs || !last then t else ExitProcess(t, pid, code)
    case Other(_) => t
  }

  /** The processes that process_foreach visits. */
  function Tracked(t: Table): (r: set<int>) {
    t.procs.Keys - {INIT_PID, t.self}
  }

  // ----- what the environment guarantees -----

  /**
   A process forks nothing after its exit and exits once; init and the tracker
   itself neither exit nor start a session, and are never dropped.
   */
  predicate WellFormed(t: Table, ev: Event, drop: bool) {
    match ev
    case Fork(parent, _, _) => parent !in t.ready
    case Exit(pid, _, _) => !IsRoot(t, pid) && pid !in t.ready
    case Setsid(pid) => !IsRoot(t, pid)
    case Exec(pid) => drop ==> !IsRoot(t, pid)
    case _ => true
  }

  // ----- the invariant -----

  /** A child list names each child once, and every child names this process as its parent. */
  ghost predicate GoodChildren(t: Table, p: int)
    requires p in t.procs
  {
    && NoDup(t.procs[p].children)
    && forall c :: c in t.procs[p].children ==> c in t.procs && !IsRoot(t, c) && t.procs[c].ppid == p
  }

  /** A root is its own parent; any other process is listed by a parent in the table. */
  ghost predicate GoodParent(t: Table, p: int)
    requires p in t.procs
  {
    var parent := t.procs[p].ppid;
    if IsRoot(t, p) then parent == p else parent in t.procs && p in t.procs[parent].children
  }

  /** Parent links and child lists agree, and exited processes are leaves. */
  ghost predicate Linked(t: Table) {
    && t.self != INIT_PID
    && INIT_PID in t.procs
    && t.self in t.procs
    && (forall p {:trigger GoodChildren(t, p)} :: p in t.procs ==> GoodChildren(t, p))
    && (forall p {:trigger GoodParent(t, p)} :: p in t.procs ==> GoodParent(t, p))
    && NoDup(t.ready)
    && (forall p :: p in t.ready ==> p in t.procs && !IsRoot(t, p) && t.procs[p].children == [])
  }

  /** `rank` grows from the parent to the process; only roots have rank zero. */
  ghost predicate GoodRank(t: Table, rank: map<int, nat>, p: int)
    requires p in t.procs
  {
    && p in rank
    && (rank[p] == 0 <==> IsRoot(t, p))
    && (!IsRoot(t, p) && t.procs[p].ppid in rank ==> rank[t.procs[p].ppid] < rank[p])
  }

  ghost predicate Ranked(t: Table, rank: map<int, nat>) {
    forall p {:trigger GoodRank(t, rank, p)} :: p in t.procs ==> GoodRank(t, rank, p)
  }

  /** The table is a forest rooted at init and the tracker. */
  ghost predicate Forest(t: Table) {
    Linked(t) && exists rank :: Ranked(t, rank)
  }
}
