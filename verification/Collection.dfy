/**
 Exactly-once collection.  A run of the tracker is replayed with a serial number
 for every process instance, a log of the exits it accepted, a log of what the
 caller collected, and the set of instances that were dropped.  At every moment
 the exits that were not dropped are, in order, the collected ones followed by
 the ones waiting on the ready list.
 */
module Collection {
  import opened Basics
  import opened ProcessTable
  import opened ProcessForest

  /** An instance (not just a pid) together with its wait status. */
  datatype Ended = Ended(serial: nat, status: int)

  datatype History = History(
    t: Table,
    serials: map<int, nat>,
    next: nat,
    exits: seq<Ended>,
    collected: seq<Ended>,
    dropped: set<nat>)

  /** The exits whose instance was not dropped, in order. */
  function Kept(exits: seq<Ended>, dropped: set<nat>): (r: seq<Ended>) {
    if exits == [] then []
    else if exits[0].serial in dropped then Kept(exits[1..], dropped)
    else [exits[0]] + Kept(exits[1..], dropped)
  }

  /** The ready list, each process with its instance and status. */
  function Waiting(t: Table, serials: map<int, nat>, pids: seq<int>): (r: seq<Ended>)
    requires forall i :: 0 <= i < |pids| ==> pids[i] in t.procs && pids[i] in serials
    ensures |r| == |pids|
    ensures forall i :: 0 <= i < |pids| ==> r[i] == Ended(serials[pids[i]], t.procs[pids[i]].wstatus)
  {
    seq(|pids|, i requires 0 <= i < |pids| => Ended(serials[pids[i]], t.procs[pids[i]].wstatus))
  }

  ghost predicate Tagged(h: History) {
    && Forest(h.t)
    && h.serials.Keys == h.t.procs.Keys
    && (forall i :: 0 <= i < |h.t.ready| ==> h.t.ready[i] in h.t.procs)
    && (forall p :: p in h.serials ==> h.serials[p] < h.next)
    && (forall p, q :: p in h.serials && q in h.serials && p != q ==> h.serials[p] != h.serials[q])
  }

  ghost predicate Consistent(h: History) {
    && Tagged(h)
    && (forall i :: 0 <= i < |h.exits| ==> h.exits[i].serial < h.next)
    && (forall i, j :: 0 <= i < j < |h.exits| ==> h.exits[i].serial != h.exits[j].serial)
    && (forall i, p :: 0 <= i < |h.exits| && p in h.serials && h.exits[i].serial == h.serials[p] ==> p in h.t.ready)
    && (forall p :: p in h.serials ==> h.serials[p] !in h.dropped)
    && (forall s :: s in h.dropped ==> s < h.next)
  }

  /** The conservation law. */
  ghost predicate Accounted(h: History)
    requires Tagged(h)
  {
    Kept(h.exits, h.dropped) == h.collected + Waiting(h.t, h.serials, h.t.ready)
  }

  function Start(self: int, sid: int): (h: History) {
    History(Initial(self, sid), map[INIT_PID := 0, self := 1], 2, [], [], {})
  }

  /** Serial numbers after a step: survivors keep theirs, a new process gets the next one. */
  function Renumber(t: Table, serials: map<int, nat>, next: nat): (r: map<int, nat>) {
    map p | p in t.procs :: if p in serials then serials[p] else next
  }

  ghost function Step(h: History, op: Op): (r: History)
    requires Tagged(h) && Allowed(h.t, op)
  {
    var t := Apply(h.t, op);
    var serials := Renumber(t, h.serials, h.next);
    var next := if t.procs.Keys <= h.t.procs.Keys then h.next else h.next + 1;
    match op
    case Reap =>
      var out := Collect(h.t).1;
      var got := if out.Process? then [Ended(h.serials[out.pid], out.proc.wstatus)] else [];
      History(t, serials, next, h.exits, h.collected + got, h.dropped)
    case Handle(Exit(pid, code, last), _) =>
      var ended := if pid in h.t.procs && last then [Ended(h.serials[pid], code)] else [];
      History(t, serials, next, h.exits + ended, h.collected, h.dropped)
    case _ =>
      var gone := set p | p in h.t.procs && p !in t.procs :: h.serials[p];
      History(t, serials, next, h.exits, h.collected, h.dropped + gone)
  }

  // ----- filtering -----

  lemma {:induction false} KeptAppend(a: seq<Ended>, b: seq<Ended>, dropped: set<nat>)
    ensures Kept(a + b, dropped) == Kept(a, dropped) + Kept(b, dropped)
  {
    if a == [] {
      assert a + b == b;
    } else {
      assert (a + b)[1..] == a[1..] + b;
      KeptAppend(a[1..], b, dropped);
    }
  }

  lemma {:induction false} KeptTwice(a: seq<Ended>, d: set<nat>, e: set<nat>)
    ensures Kept(Kept(a, d), e) == Kept(a, d + e)
  {
    if a != [] {
      KeptTwice(a[1..], d, e);
    }
  }

  lemma {:induction false} KeptAll(a: seq<Ended>, d: set<nat>)
    requires forall i :: 0 <= i < |a| ==> a[i].serial !in d
    ensures Kept(a, d) == a
  {
    if a != [] {
      KeptAll(a[1..], d);
    }
  }

  /** What is kept stands in the same order as in the original, each entry once. */
  lemma {:induction false} KeptIsSubsequence(a: seq<Ended>, d: set<nat>) returns (at: seq<nat>)
    ensures |at| == |Kept(a, d)|
    ensures forall i :: 0 <= i < |at| ==> at[i] < |a| && a[at[i]] == Kept(a, d)[i] && a[at[i]].serial !in d
    ensures forall i, j :: 0 <= i < j < |at| ==> at[i] < at[j]
  {
    if a == [] {
      at := [];
    } else {
      var rest := KeptIsSubsequence(a[1..], d);
      var shifted := seq(|rest|, i requires 0 <= i < |rest| => rest[i] + 1);
      at := if a[0].serial in d then shifted else [0] + shifted;
    }
  }

  // ----- the steps -----

  lemma WaitingSame(t: Table, u: Table, s: map<int, nat>, r: map<int, nat>, pids: seq<int>)
    requires forall i :: 0 <= i < |pids| ==> pids[i] in t.procs && pids[i] in s && pids[i] in u.procs && pids[i] in r
    requires forall i :: 0 <= i < |pids| ==>
              s[pids[i]] == r[pids[i]] && t.procs[pids[i]].wstatus == u.procs[pids[i]].wstatus
    ensures Waiting(t, s, pids) == Waiting(u, r, pids)
  {
  }

  lemma {:induction false} WaitingWithout(
    t: Table, serials: map<int, nat>, pids: seq<int>, gone: set<int>, dead: set<nat>)
    requires forall i :: 0 <= i < |pids| ==> pids[i] in t.procs && pids[i] in serials
    requires forall i :: 0 <= i < |pids| ==> (pids[i] in gone <==> serials[pids[i]] in dead)
    ensures forall i :: 0 <= i < |Without(pids, gone)| ==>
              Without(pids, gone)[i] in pids && Without(pids, gone)[i] !in gone
    ensures Waiting(t, serials, Without(pids, gone)) == Kept(Waiting(t, serials, pids), dead)
  {
    if pids != [] {
      var rest := pids[1..];
      assert forall i :: 0 <= i < |rest| ==> rest[i] == pids[i + 1];
      WaitingWithout(t, serials, rest, gone, dead);
      assert Waiting(t, serials, pids)[1..] == Waiting(t, serials, rest);
      if pids[0] !in gone {
        assert Waiting(t, serials, [pids[0]] + Without(rest, gone))
            == [Waiting(t, serials, pids)[0]] + Waiting(t, serials, Without(rest, gone));
      }
    }
  }

  /** No live process was collected. */
  lemma CollectedNotLive(h: History, p: int, i: nat)
    requires Consistent(h) && Accounted(h) && p in h.serials && i < |h.collected|
    ensures h.collected[i].serial != h.serials[p]
  {
    var at := KeptIsSubsequence(h.exits, h.dropped);
    var kept := Kept(h.exits, h.dropped);
    assert kept[i] == h.collected[i] == h.exits[at[i]];
    if p in h.t.ready {
      var k :| 0 <= k < |h.t.ready| && h.t.ready[k] == p;
      var j := |h.collected| + k;
      assert kept[j].serial == h.serials[p] && kept[j] == h.exits[at[j]];
    }
  }

  lemma ShrinkConsistent(h: History, r: History, gone: set<int>)
    requires Consistent(h) && Forest(r.t) && r.exits == h.exits && r.next == h.next
    requires r.serials == Renumber(r.t, h.serials, h.next)
    requires r.t.procs.Keys == h.t.procs.Keys - gone && gone <= h.t.procs.Keys
    requires forall p :: p in r.t.ready <==> p in h.t.ready && p !in gone
    requires forall s :: s in r.dropped ==> s in h.dropped || exists p :: p in gone && h.serials[p] == s
    ensures Consistent(r)
  {
    hide Forest;
    forall i | 0 <= i < |r.t.ready| ensures r.t.ready[i] in r.t.procs {
      var p := r.t.ready[i];
      assert p in r.t.ready;
      var j :| 0 <= j < |h.t.ready| && h.t.ready[j] == p;
    }
  }

  lemma Assoc<T>(a: seq<T>, b: seq<T>, c: seq<T>)
    ensures a + (b + c) == (a + b) + c
  {
  }

  /** Losing some processes, all else as before, keeps the books. */
  lemma ShrinkStep(h: History, t: Table, gone: set<int>)
    requires Consistent(h) && Accounted(h) && Forest(t)
    requires t.procs.Keys == h.t.procs.Keys - gone && gone <= h.t.procs.Keys
    requires t.ready == Without(h.t.ready, gone)
    requires forall p :: p in t.procs ==> t.procs[p].wstatus == h.t.procs[p].wstatus
    ensures var dead := set p | p in gone :: h.serials[p];
      var r := History(t, Renumber(t, h.serials, h.next), h.next, h.exits, h.collected, h.dropped + dead);
      Consistent(r) && Accounted(r)
  {
    hide Forest, Kept, Without;
    var dead := set p | p in gone :: h.serials[p];
    var serials := Renumber(t, h.serials, h.next);
    WithoutElements(h.t.ready, gone);
    forall p | p in h.serials ensures p in gone <==> h.serials[p] in dead {
      if h.serials[p] in dead {
        var q :| q in gone && h.serials[q] == h.serials[p];
      }
    }
    var r := History(t, serials, h.next, h.exits, h.collected, h.dropped + dead);
    ShrinkConsistent(h, r, gone);
    assert forall i :: 0 <= i < |t.ready| ==> t.ready[i] in r.t.procs && t.ready[i] in h.t.procs;
    KeptTwice(h.exits, h.dropped, dead);
    KeptAppend(h.collected, Waiting(h.t, h.serials, h.t.ready), dead);
    forall i | 0 <= i < |h.collected| ensures h.collected[i].serial !in dead {
      forall p | p in gone ensures h.collected[i].serial != h.serials[p] {
        CollectedNotLive(h, p, i);
      }
    }
    KeptAll(h.collected, dead);
    WaitingWithout(h.t, h.serials, h.t.ready, gone, dead);
    forall i | 0 <= i < |t.ready|
      ensures h.serials[t.ready[i]] == serials[t.ready[i]]
      ensures h.t.procs[t.ready[i]].wstatus == t.procs[t.ready[i]].wstatus
    {
      var p := t.ready[i];
      assert p in t.procs;
    }
    WaitingSame(h.t, t, h.serials, serials, t.ready);
  }

  lemma UnparentStatus(t: Table, pid: int)
    requires pid in t.procs
    ensures Unparent(t, pid).procs.Keys == t.procs.Keys && Unparent(t, pid).ready == t.ready
    ensures forall p :: p in t.procs ==> Unparent(t, pid).procs[p].wstatus == t.procs[p].wstatus
  {
  }

  lemma ForkStatus(t: Table, parent: int, child: int)
    requires INIT_PID in t.procs && parent in t.procs && parent != INIT_PID && child !in t.procs
    ensures var u := Insert(t, child, parent, 0).0;
      && u.procs.Keys == t.procs.Keys + {child} && u.ready == t.ready
      && forall p :: p in t.procs ==> u.procs[p].wstatus == t.procs[p].wstatus
  {
  }

  lemma ForkConsistent(h: History, t: Table, child: int)
    requires Consistent(h) && Forest(t) && child !in h.t.procs
    requires t.procs.Keys == h.t.procs.Keys + {child} && t.ready == h.t.ready
    ensures Consistent(h.(t := t, serials := Renumber(t, h.serials, h.next), next := h.next + 1))
  {
    hide Forest;
  }

  lemma ForkStep(h: History, parent: int, child: int)
    requires Consistent(h) && Accounted(h)
    requires parent in h.t.procs && parent !in h.t.ready && parent != INIT_PID && child !in h.t.procs
    ensures var t := Insert(h.t, child, parent, 0).0;
      var r := h.(t := t, serials := Renumber(t, h.serials, h.next), next := h.next + 1);
      Consistent(r) && Accounted(r)
  {
    InsertForest(h.t, child, parent);
    ForkStatus(h.t, parent, child);
    hide Insert, Forest, Kept;
    var t := Insert(h.t, child, parent, 0).0;
    ForkConsistent(h, t, child);
    WaitingSame(h.t, t, h.serials, Renumber(t, h.serials, h.next), h.t.ready);
    hide Consistent;
  }

  lemma ExitStatus(t: Table, pid: int, code: int)
    requires pid in t.procs && INIT_PID in t.procs && pid != INIT_PID
    ensures var r := ExitProcess(t, pid, code);
      && r.procs.Keys == t.procs.Keys && r.ready == t.ready + [pid] && r.procs[pid].wstatus == code
      && forall p :: p in t.procs && p != pid ==> r.procs[p].wstatus == t.procs[p].wstatus
  {
  }

  lemma ExitConsistent(h: History, t: Table, pid: int, code: int)
    requires Consistent(h) && Forest(t) && pid in h.t.procs && pid !in h.t.ready
    requires t.procs.Keys == h.t.procs.Keys && t.ready == h.t.ready + [pid]
    ensures Consistent(h.(t := t, exits := h.exits + [Ended(h.serials[pid], code)]))
  {
    hide Forest;
    forall p ensures p in t.ready <==> p in h.t.ready || p == pid {
    }
  }

  /** The books after one more exit, given only what an exit does to keys, statuses and the ready list. */
  lemma ExitBooks(h: History, t: Table, pid: int, code: int)
    requires Consistent(h) && Accounted(h) && Forest(t)
    requires pid in h.t.procs && pid !in h.t.ready
    requires t.procs.Keys == h.t.procs.Keys && t.ready == h.t.ready + [pid] && t.procs[pid].wstatus == code
    requires forall i :: 0 <= i < |h.t.ready| ==> t.procs[h.t.ready[i]].wstatus == h.t.procs[h.t.ready[i]].wstatus
    ensures var r := h.(t := t, exits := h.exits + [Ended(h.serials[pid], code)]);
      Consistent(r) && Accounted(r)
  {
    var e := Ended(h.serials[pid], code);
    KeptAppend(h.exits, [e], h.dropped);
    assert Kept([e], h.dropped) == [e];
    hide Kept, Forest;
    ExitConsistent(h, t, pid, code);
    WaitingSame(h.t, t, h.serials, h.serials, h.t.ready);
    assert Waiting(t, h.serials, h.t.ready + [pid]) == Waiting(t, h.serials, h.t.ready) + [e];
    hide Consistent;
    Assoc(h.collected, Waiting(h.t, h.serials, h.t.ready), [e]);
  }

  lemma ExitStep(h: History, pid: int, code: int)
    requires Consistent(h) && Accounted(h)
    requires pid in h.t.procs && !IsRoot(h.t, pid) && pid !in h.t.ready
    ensures var t := ExitProcess(h.t, pid, code);
      var r := h.(t := t, serials := Renumber(t, h.serials, h.next), exits := h.exits + [Ended(h.serials[pid], code)]);
      Consistent(r) && Accounted(r)
  {
    ExitForest(h.t, pid, code);
    ExitStatus(h.t, pid, code);
    var t := ExitProcess(h.t, pid, code);
    assert Renumber(t, h.serials, h.next) == h.serials;
    ExitBooks(h, t, pid, code);
  }

  lemma ReapConsistent(h: History, r: History, pid: int)
    requires Consistent(h) && Forest(r.t) && r.exits == h.exits && r.next == h.next && r.dropped == h.dropped
    requires r.serials == Renumber(r.t, h.serials, h.next)
    requires h.t.ready != [] && pid == h.t.ready[0] && pid !in h.t.ready[1..] && pid in h.t.procs
    requires r.t.procs.Keys == h.t.procs.Keys - {pid} && r.t.ready == h.t.ready[1..]
    ensures Consistent(r)
  {
    hide Consistent, Forest, Renumber;
    var rest := h.t.ready[1..];
    assert h.t.ready == [pid] + rest;
    forall p ensures p in rest <==> p in h.t.ready && p !in {pid} {
    }
    ShrinkConsistent(h, r, {pid});
  }

  /** The books after one collection, given only what it does to keys, statuses and the ready list. */
  lemma ReapBooks(h: History, t: Table, pid: int)
    requires Consistent(h) && Accounted(h) && Forest(t)
    requires h.t.ready != [] && pid == h.t.ready[0] && pid !in h.t.ready[1..]
    requires t.procs.Keys == h.t.procs.Keys - {pid} && t.ready == h.t.ready[1..]
    requires forall p :: p in t.procs ==> t.procs[p].wstatus == h.t.procs[p].wstatus
    ensures var r := h.(t := t, serials := Renumber(t, h.serials, h.next),
                        collected := h.collected + [Ended(h.serials[pid], h.t.procs[pid].wstatus)]);
      Consistent(r) && Accounted(r)
  {
    hide Forest, Kept;
    var rest := h.t.ready[1..];
    assert forall i :: 0 <= i < |rest| ==> rest[i] == h.t.ready[i + 1] && rest[i] in rest;
    var serials := Renumber(t, h.serials, h.next);
    var got := Ended(h.serials[pid], h.t.procs[pid].wstatus);
    assert Waiting(h.t, h.serials, h.t.ready) == [got] + Waiting(h.t, h.serials, rest);
    WaitingSame(h.t, t, h.serials, serials, rest);
    Assoc(h.collected, [got], Waiting(t, serials, rest));
    ReapConsistent(h, h.(t := t, serials := serials, collected := h.collected + [got]), pid);
    hide Consistent;
  }

  lemma ReapStep(h: History)
    requires Consistent(h) && Accounted(h) && |h.t.procs| != 2 && h.t.ready != []
    ensures var (t, out) := Collect(h.t);
      var r := h.(t := t, serials := Renumber(t, h.serials, h.next),
                  collected := h.collected + [Ended(h.serials[out.pid], out.proc.wstatus)]);
      Consistent(r) && Accounted(r)
  {
    CollectForest(h.t);
    var pid := h.t.ready[0];
    assert h.t.ready == [pid] + h.t.ready[1..];
    UnparentStatus(h.t.(ready := h.t.ready[1..]), pid);
    hide Forest, RemoveFirst, Unparent;
    ReapBooks(h, Collect(h.t).0, pid);
  }

  /** A step that only loses the processes in `gone`, seen as a step of the history. */
  lemma LosingStep(h: History, op: Op, gone: set<int>)
    requires Consistent(h) && Accounted(h) && Allowed(h.t, op) && Forest(Apply(h.t, op))
    requires op.Forsake? || (op.Handle? && !op.ev.Exit?)
    requires Apply(h.t, op).procs.Keys == h.t.procs.Keys - gone && gone <= h.t.procs.Keys
    requires Apply(h.t, op).ready == Without(h.t.ready, gone)
    requires forall p :: p in Apply(h.t, op).procs ==> Apply(h.t, op).procs[p].wstatus == h.t.procs[p].wstatus
    ensures Consistent(Step(h, op)) && Accounted(Step(h, op))
  {
    hide Forest, Kept, Ingest, Drop, Without;
    var t := Apply(h.t, op);
    ShrinkStep(h, t, gone);
    hide Consistent;
    assert (set p | p in h.t.procs && p !in t.procs :: h.serials[p]) == (set p | p in gone :: h.serials[p]);
  }

  lemma QuietStep(h: History, op: Op)
    requires Consistent(h) && Accounted(h) && Allowed(h.t, op) && Forest(Apply(h.t, op))
    requires op.Forsake? || (op.Handle? && !op.ev.Exit?)
    requires Apply(h.t, op).procs.Keys == h.t.procs.Keys && Apply(h.t, op).ready == h.t.ready
    requires forall p :: p in h.t.procs ==> Apply(h.t, op).procs[p].wstatus == h.t.procs[p].wstatus
    ensures Consistent(Step(h, op)) && Accounted(Step(h, op))
  {
    WithoutNothing(h.t.ready, {});
    LosingStep(h, op, {});
  }

  lemma DropStep(h: History, op: Op, u: Table, pid: int)
    requires Consistent(h) && Accounted(h) && Allowed(h.t, op) && Forest(u) && !IsRoot(u, pid) && pid in u.procs
    requires op.Forsake? || (op.Handle? && !op.ev.Exit?)
    requires Apply(h.t, op) == Drop(u, pid)
    requires u.procs.Keys == h.t.procs.Keys && u.ready == h.t.ready
    requires forall p :: p in u.procs ==> u.procs[p].wstatus == h.t.procs[p].wstatus
    ensures Consistent(Step(h, op)) && Accounted(Step(h, op))
  {
    DropForest(u, pid);
    UnparentStatus(u, pid);
    LosingStep(h, op, Subtree(u, pid));
  }

  lemma ReapKeepsBooks(h: History)
    requires Consistent(h) && Accounted(h)
    ensures Consistent(Step(h, Reap)) && Accounted(Step(h, Reap))
  {
    hide Kept;
    if |h.t.procs| != 2 && h.t.ready != [] {
      CollectIsForget(h.t);
      ReapStep(h);
      hide Consistent, Forest;
    } else {
      hide Forest;
      assert Renumber(h.t, h.serials, h.next) == h.serials && h.collected + [] == h.collected;
    }
  }

  lemma ExitKeepsBooks(h: History, op: Op)
    requires Consistent(h) && Accounted(h) && Allowed(h.t, op) && op.Handle? && op.ev.Exit?
    ensures Consistent(Step(h, op)) && Accounted(Step(h, op))
  {
    if op.ev.pid in h.t.procs && op.ev.last {
      ExitStatus(h.t, op.ev.pid, op.ev.code);
      ExitStep(h, op.ev.pid, op.ev.code);
    } else {
      assert Renumber(h.t, h.serials, h.next) == h.serials && h.exits + [] == h.exits;
    }
  }

  lemma SetsidKeepsBooks(h: History, op: Op)
    requires Consistent(h) && Accounted(h) && Allowed(h.t, op) && op.Handle? && op.ev.Setsid?
    ensures Consistent(Step(h, op)) && Accounted(Step(h, op))
  {
    ApplyForest(h.t, op);
    if op.ev.pid in h.t.procs {
      SetsidForest(h.t, op.ev.pid);
      if op.drop { DropStep(h, op, Insert(h.t, op.ev.pid, 0, op.ev.pid).0, op.ev.pid); } else { QuietStep(h, op); }
    } else {
      QuietStep(h, op);
    }
  }

  lemma ForkKeepsBooks(h: History, op: Op)
    requires Consistent(h) && Accounted(h) && Allowed(h.t, op) && op.Handle? && op.ev.Fork?
    ensures Consistent(Step(h, op)) && Accounted(Step(h, op))
  {
    ApplyForest(h.t, op);
    if op.ev.parent in h.t.procs && op.ev.child == op.ev.childTid && op.ev.parent != INIT_PID {
      InsertForest(h.t, op.ev.child, op.ev.parent);
      if op.ev.child in h.t.procs { QuietStep(h, op); } else { ForkBooks(h, op); }
    } else {
      QuietStep(h, op);
    }
  }

  lemma StepKeepsBooks(h: History, op: Op)
    requires Consistent(h) && Accounted(h) && Allowed(h.t, op)
    ensures Consistent(Step(h, op)) && Accounted(Step(h, op))
  {
    ApplyForest(h.t, op);
    match op
    case Reap => ReapKeepsBooks(h);
    case Forsake(pid) => if pid in h.t.procs { DropStep(h, op, h.t, pid); } else { QuietStep(h, op); }
    case Handle(Fork(_, _, _), _) => ForkKeepsBooks(h, op);
    case Handle(Setsid(_), _) => SetsidKeepsBooks(h, op);
    case Handle(Exit(_, _, _), _) => ExitKeepsBooks(h, op);
    case Handle(Exec(pid), drop) =>
      if pid in h.t.procs && drop { DropStep(h, op, h.t, pid); } else { QuietStep(h, op); }
    case Handle(_, _) => QuietStep(h, op);
  }

  lemma ForkBooks(h: History, op: Op)
    requires Consistent(h) && Accounted(h) && Allowed(h.t, op)
    requires op.Handle? && op.ev.Fork? && op.ev.child == op.ev.childTid
    requires op.ev.parent in h.t.procs && op.ev.parent != INIT_PID && op.ev.child !in h.t.procs
    ensures Consistent(Step(h, op)) && Accounted(Step(h, op))
  {
    var t := Apply(h.t, op);
    ForkStep(h, op.ev.parent, op.ev.child);
    assert h.t.procs.Keys <= t.procs.Keys;
    assert Step(h, op).dropped == h.dropped;
  }
}
