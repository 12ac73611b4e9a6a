/**
 The table stays a forest rooted at init and the tracker, over every run of
 well-formed events, collections and drops.
 */
module ProcessForest {
  import opened Basics
  import opened ProcessTable

  // ----- lists -----

  lemma {:induction false} RemoveFirstElements<T>(s: seq<T>, x: T)
    requires NoDup(s)
    ensures NoDup(RemoveFirst(s, x))
    ensures forall y :: y in RemoveFirst(s, x) <==> y in s && y != x
  {
    if s != [] {
      var tail := s[1..];
      assert s == [s[0]] + tail;
      assert NoDup(tail) && s[0] !in tail;
      RemoveFirstElements(tail, x);
      if s[0] != x {
        assert s[0] !in RemoveFirst(tail, x);
      }
    }
  }

  lemma NoDupConcat(a: seq<int>, b: seq<int>)
    requires NoDup(a) && NoDup(b) && forall x :: x in a ==> x !in b
    ensures NoDup(a + b)
  {
    var s := a + b;
    forall i, j | 0 <= i < j < |s| ensures s[i] != s[j] {
      if i < |a| <= j {
        assert s[i] in a && s[j] in b;
      }
    }
  }

  lemma {:induction false} WithoutElements(s: seq<int>, gone: set<int>)
    ensures forall y :: y in Without(s, gone) <==> y in s && y !in gone
    ensures NoDup(s) ==> NoDup(Without(s, gone))
  {
    if s != [] {
      assert s == [s[0]] + s[1..];
      assert NoDup(s) ==> s[0] !in s[1..] && NoDup(s[1..]);
      WithoutElements(s[1..], gone);
    }
  }

  lemma {:induction false} WithoutNothing(s: seq<int>, gone: set<int>)
    requires forall i :: 0 <= i < |s| ==> s[i] !in gone
    ensures Without(s, gone) == s
  {
    if s != [] {
      assert s[0] in s;
      WithoutNothing(s[1..], gone);
      assert s == [s[0]] + s[1..];
    }
  }

  lemma {:induction false} WithoutTwice(s: seq<int>, a: set<int>, b: set<int>)
    ensures Without(Without(s, a), b) == Without(s, a + b)
  {
    if s != [] {
      WithoutTwice(s[1..], a, b);
    }
  }

  lemma {:induction false} RemoveFirstIsWithout(s: seq<int>, x: int)
    requires NoDup(s)
    ensures RemoveFirst(s, x) == Without(s, {x})
  {
    if s != [] {
      var tail := s[1..];
      assert NoDup(tail) && forall i :: 0 <= i < |tail| ==> tail[i] == s[i + 1];
      if s[0] == x {
        WithoutNothing(tail, {x});
      } else {
        RemoveFirstIsWithout(tail, x);
      }
    }
  }

  // ----- single operations -----

  lemma InitialForest(self: int, sid: int)
    requires self != INIT_PID
    ensures Forest(Initial(self, sid))
  {
    var rank: map<int, nat> := map[INIT_PID := 0, self := 0];
    assert Ranked(Initial(self, sid), rank);
  }

  lemma InsertLinked(t: Table, child: int, parent: int)
    requires Linked(t) && parent in t.procs && parent !in t.ready && child !in t.procs
    ensures Linked(Insert(t, child, parent, 0).0)
  {
    var r := Insert(t, child, parent, 0).0;
    assert GoodChildren(t, parent);
    assert GoodChildren(r, parent);
    forall p | p in r.procs ensures GoodChildren(r, p) && GoodParent(r, p) {
      if p != child {
        assert GoodChildren(t, p) && GoodParent(t, p);
      }
    }
  }

  lemma InsertForest(t: Table, child: int, parent: int)
    requires Forest(t) && parent in t.procs && parent !in t.ready && parent != INIT_PID
    ensures Forest(Insert(t, child, parent, 0).0)
    ensures child in t.procs ==> Insert(t, child, parent, 0).0 == t
  {
    if child !in t.procs {
      InsertLinked(t, child, parent);
      var r := Insert(t, child, parent, 0).0;
      var rank :| Ranked(t, rank);
      assert GoodRank(t, rank, parent);
      var rank' := rank[child := rank[parent] + 1];
      forall p | p in r.procs ensures GoodRank(r, rank', p) {
        if p != child {
          assert GoodRank(t, rank, p) && GoodParent(t, p);
        }
      }
      assert Ranked(r, rank');
    }
  }

  lemma SetsidForest(t: Table, pid: int)
    requires Forest(t) && pid in t.procs
    ensures Forest(Insert(t, pid, 0, pid).0)
  {
    var r := Insert(t, pid, 0, pid).0;
    var rank :| Ranked(t, rank);
    forall p | p in r.procs ensures GoodChildren(r, p) && GoodParent(r, p) && GoodRank(r, rank, p) {
      assert GoodChildren(t, p) && GoodParent(t, p) && GoodRank(t, rank, p);
    }
    assert Ranked(r, rank);
  }

  lemma ExitLinked(t: Table, pid: int, code: int)
    requires Linked(t) && pid in t.procs && !IsRoot(t, pid) && pid !in t.ready
    requires t.procs[pid].ppid != pid
    ensures Linked(ExitProcess(t, pid, code))
  {
    var r := ExitProcess(t, pid, code);
    assert GoodChildren(t, pid) && GoodChildren(t, INIT_PID);
    assert NoDup(t.procs[INIT_PID].children + t.procs[pid].children) by {
      NoDupConcat(t.procs[INIT_PID].children, t.procs[pid].children);
    }
    forall p | p in r.procs ensures GoodChildren(r, p) && GoodParent(r, p) {
      assert GoodChildren(t, p) && GoodParent(t, p);
    }
  }

  /** A tracked process is not its own parent, and its children point back, also once its status is set. */
  lemma NotOwnParent(t: Table, pid: int)
    requires Forest(t) && pid in t.procs && !IsRoot(t, pid)
    ensures t.procs[pid].ppid != pid
    ensures forall code :: GoodChildren(Put(t, pid, t.procs[pid].(wstatus := code)), pid)
  {
    var rank :| Ranked(t, rank);
    assert GoodRank(t, rank, pid) && GoodParent(t, pid) && GoodChildren(t, pid);
  }

  lemma ExitForest(t: Table, pid: int, code: int)
    requires Forest(t) && pid in t.procs && !IsRoot(t, pid) && pid !in t.ready
    ensures Forest(ExitProcess(t, pid, code))
  {
    var r := ExitProcess(t, pid, code);
    var rank :| Ranked(t, rank);
    assert GoodRank(t, rank, pid) && GoodRank(t, rank, INIT_PID);
    NotOwnParent(t, pid);
    ExitLinked(t, pid, code);
    forall p | p in r.procs ensures GoodRank(r, rank, p) {
      assert GoodRank(t, rank, p);
    }
    assert Ranked(r, rank);
  }

  /** One round of the loop in process_reparent_children. */
  function MoveFirstChild(t: Table, pid: int): (r: Table)
    requires pid in t.procs && INIT_PID in t.procs && t.procs[pid].children != []
    requires t.procs[pid].children[0] in t.procs
  {
    var child := t.procs[pid].children[0];
    var u := Put(t, pid, t.procs[pid].(children := t.procs[pid].children[1..]));
    AppendChild(Put(u, child, u.procs[child].(ppid := INIT_PID)), INIT_PID, child)
  }

  lemma MoveFirstChildStep(t: Table, pid: int)
    requires pid in t.procs && INIT_PID in t.procs && pid != INIT_PID && t.procs[pid].ppid != pid
    requires t.procs[pid].children != [] && GoodChildren(t, pid)
    ensures t.procs[pid].children[0] in t.procs
    ensures MoveFirstChild(t, pid).procs.Keys == t.procs.Keys
    ensures MoveFirstChild(t, pid).procs[pid].ppid == t.procs[pid].ppid
    ensures GoodChildren(MoveFirstChild(t, pid), pid)
    ensures ReparentChildren(MoveFirstChild(t, pid), pid) == ReparentChildren(t, pid)
  {
    var moved := t.procs[pid].children;
    var child := moved[0];
    assert child in moved && pid !in moved && INIT_PID !in moved;
    MoveFirstThenRest(t, pid);
    hide ReparentChildren;
  }

  lemma MoveFirstThenRest(t: Table, pid: int)
    requires pid in t.procs && INIT_PID in t.procs && pid != INIT_PID
    requires t.procs[pid].children != [] && t.procs[pid].children[0] in t.procs
    requires pid !in t.procs[pid].children && INIT_PID !in t.procs[pid].children
    ensures ReparentChildren(MoveFirstChild(t, pid), pid) == ReparentChildren(t, pid)
  {
    var moved := t.procs[pid].children;
    var child, rest := moved[0], moved[1..];
    assert moved == [child] + rest;
    var u := MoveFirstChild(t, pid);
    assert u.procs[pid].children == rest;
    var r, s := ReparentChildren(u, pid), ReparentChildren(t, pid);
    assert t.procs[INIT_PID].children + moved == t.procs[INIT_PID].children + [child] + rest;
    forall q | q in t.procs ensures r.procs[q] == s.procs[q] {
      assert q in moved <==> q == child || q in rest;
    }
    assert r.procs == s.procs;
  }

  lemma NoChildrenToMove(t: Table, pid: int)
    requires pid in t.procs && INIT_PID in t.procs && pid != INIT_PID && t.procs[pid].children == []
    ensures ReparentChildren(t, pid) == t
  {
    var r := ReparentChildren(t, pid);
    forall q | q in t.procs ensures r.procs[q] == t.procs[q] {
      assert t.procs[q].children + [] == t.procs[q].children;
    }
    assert r.procs == t.procs;
  }

  lemma UnparentLinks(t: Table, pid: int)
    requires Linked(t) && pid in t.procs && !IsRoot(t, pid)
    ensures var u := Unparent(t, pid);
      && u.procs.Keys == t.procs.Keys && u.ready == t.ready && u.self == t.self
      && (forall q :: q in t.procs ==> u.procs[q].ppid == t.procs[q].ppid)
      && (forall q :: q in t.procs ==> NoDup(u.procs[q].children))
      && (forall q, c :: q in t.procs ==> (c in u.procs[q].children <==> c in t.procs[q].children && c != pid))
  {
    var u := Unparent(t, pid);
    var parent := t.procs[pid].ppid;
    assert GoodParent(t, pid) && GoodChildren(t, parent);
    RemoveFirstElements(t.procs[parent].children, pid);
    forall q | q in t.procs
      ensures NoDup(u.procs[q].children)
      ensures forall c :: c in u.procs[q].children <==> c in t.procs[q].children && c != pid
    {
      assert GoodChildren(t, q);
    }
  }

  /** A set of processes that contains all children of its members, reached only through `pid`. */
  ghost predicate Branch(t: Table, pid: int, gone: set<int>)
    requires Linked(t)
  {
    && pid in gone && INIT_PID !in gone && t.self !in gone
    && (forall q :: q in t.procs && q != pid && !IsRoot(t, q) ==> (q in gone <==> t.procs[q].ppid in gone))
  }

  lemma ForgetForest(t: Table, pid: int, gone: set<int>)
    requires Forest(t) && pid in t.procs && Branch(t, pid, gone)
    ensures Forest(Forget(Unparent(t, pid), gone))
  {
    UnparentLinks(t, pid);
    WithoutElements(t.ready, gone);
    var rank :| Ranked(t, rank);
    var r := Forget(Unparent(t, pid), gone);
    forall p | p in r.procs ensures GoodChildren(r, p) && GoodParent(r, p) && GoodRank(r, rank, p) {
      assert GoodChildren(t, p) && GoodParent(t, p) && GoodRank(t, rank, p);
    }
    assert Ranked(r, rank);
  }

  lemma CollectIsForget(t: Table)
    requires Forest(t) && |t.procs| != 2 && t.ready != []
    ensures Collect(t).0 == Forget(Unparent(t, t.ready[0]), {t.ready[0]})
    ensures Branch(t, t.ready[0], {t.ready[0]})
  {
    var pid := t.ready[0];
    assert t.ready == [pid] + t.ready[1..];
    WithoutNothing(t.ready[1..], {pid});
    forall q | q in t.procs && q != pid && !IsRoot(t, q) ensures t.procs[q].ppid != pid {
      assert GoodParent(t, q);
    }
  }

  lemma CollectForest(t: Table)
    requires Forest(t)
    ensures Forest(Collect(t).0)
  {
    if |t.procs| != 2 && t.ready != [] {
      CollectIsForget(t);
      ForgetForest(t, t.ready[0], {t.ready[0]});
    }
  }

  // ----- subtrees -----

  lemma {:induction false} RootsStay(t: Table, root: int, n: nat)
    requires Linked(t) && IsRoot(t, root)
    ensures Ancestor(t, root, n) == root
  {
    if n > 0 {
      assert GoodParent(t, root);
      RootsStay(t, root, n - 1);
    }
  }

  lemma {:induction false} AncestorAdds(t: Table, pid: int, m: nat, n: nat)
    ensures Ancestor(t, pid, m + n) == Ancestor(t, Ancestor(t, pid, m), n)
    decreases m
  {
    if m > 0 && pid in t.procs {
      AncestorAdds(t, t.procs[pid].ppid, m - 1, n);
    }
  }

  /** Following parent links from any process ends at init or the tracker. */
  lemma {:induction false} EveryChainEndsAtRoot(t: Table, rank: map<int, nat>, pid: int)
    requires Linked(t) && Ranked(t, rank) && pid in t.procs
    ensures pid in rank && IsRoot(t, Ancestor(t, pid, rank[pid]))
    decreases if pid in rank then rank[pid] else 0
  {
    assert GoodRank(t, rank, pid) && GoodParent(t, pid);
    if rank[pid] > 0 {
      var parent := t.procs[pid].ppid;
      assert GoodRank(t, rank, parent);
      EveryChainEndsAtRoot(t, rank, parent);
      var m, n := rank[parent], rank[pid] - 1 - rank[parent];
      AncestorAdds(t, parent, m, n);
      RootsStay(t, Ancestor(t, parent, m), n);
      assert m + n == rank[pid] - 1;
    }
  }

  /** Proper ancestors of a non-root have a smaller rank. */
  lemma {:induction false} AncestorRank(t: Table, rank: map<int, nat>, pid: int, n: nat)
    requires Linked(t) && Ranked(t, rank) && pid in t.procs
    ensures var a := Ancestor(t, pid, n);
      a in t.procs && a in rank && pid in rank && rank[a] <= rank[pid]
    decreases n
  {
    assert GoodRank(t, rank, pid) && GoodParent(t, pid);
    if n > 0 {
      assert GoodRank(t, rank, t.procs[pid].ppid);
      AncestorRank(t, rank, t.procs[pid].ppid, n - 1);
    }
  }

  lemma DescendsStep(t: Table, q: int, p: int)
    requires q in t.procs
    ensures Descends(t, q, p) <==> q == p || Descends(t, t.procs[q].ppid, p)
  {
    var parent := t.procs[q].ppid;
    if Descends(t, q, p) && q != p {
      var n: nat :| Ancestor(t, q, n) == p;
      assert Ancestor(t, parent, n - 1) == p;
    }
    if q == p {
      assert Ancestor(t, q, 0) == p;
    }
    if Descends(t, parent, p) {
      var n: nat :| Ancestor(t, parent, n) == p;
      assert Ancestor(t, q, n + 1) == p;
    }
  }

  /** The subtree of a process is the branch that hangs from it. */
  lemma SubtreeBranch(t: Table, pid: int)
    requires Forest(t) && pid in t.procs && !IsRoot(t, pid)
    ensures Branch(t, pid, Subtree(t, pid))
    ensures t.procs[pid].ppid !in Subtree(t, pid)
  {
    assert Ancestor(t, pid, 0) == pid;
    forall q | q in t.procs && q != pid && !IsRoot(t, q)
      ensures q in Subtree(t, pid) <==> t.procs[q].ppid in Subtree(t, pid)
    {
      DescendsStep(t, q, pid);
      assert GoodParent(t, q);
    }
    forall n: nat, root | IsRoot(t, root) ensures Ancestor(t, root, n) == root {
      RootsStay(t, root, n);
    }
    var rank :| Ranked(t, rank);
    assert GoodRank(t, rank, pid) && GoodParent(t, pid);
    var parent := t.procs[pid].ppid;
    assert GoodRank(t, rank, parent);
    forall n: nat ensures Ancestor(t, parent, n) != pid {
      AncestorRank(t, rank, parent, n);
    }
  }

  /** The subtrees of the first `k` children of a process. */
  ghost function ChildSubtrees(t: Table, pid: int, k: nat): (r: set<int>)
    requires pid in t.procs && k <= |t.procs[pid].children|
  {
    if k == 0 then {} else ChildSubtrees(t, pid, k - 1) + Subtree(t, t.procs[pid].children[k - 1])
  }

  lemma {:induction false} InChildSubtrees(t: Table, pid: int, k: nat, q: int)
    requires pid in t.procs && k <= |t.procs[pid].children|
    ensures q in ChildSubtrees(t, pid, k) <==> exists i :: 0 <= i < k && q in Subtree(t, t.procs[pid].children[i])
    decreases k
  {
    if k > 0 {
      InChildSubtrees(t, pid, k - 1, q);
    }
  }

  /** Two children of one process have no descendant in common. */
  lemma SiblingsDisjoint(t: Table, pid: int, i: nat, j: nat)
    requires Forest(t) && pid in t.procs && i < |t.procs[pid].children| && j < |t.procs[pid].children| && i != j
    ensures Subtree(t, t.procs[pid].children[i]) !! Subtree(t, t.procs[pid].children[j])
  {
    var a, b := t.procs[pid].children[i], t.procs[pid].children[j];
    assert GoodChildren(t, pid) && a in t.procs[pid].children && b in t.procs[pid].children;
    forall q | q in Subtree(t, a) && q in Subtree(t, b) ensures false {
      var m: nat :| Ancestor(t, q, m) == a;
      var n: nat :| Ancestor(t, q, n) == b;
      if m < n {
        NotAbove(t, pid, a, b, q, m, n);
      } else {
        NotAbove(t, pid, b, a, q, n, m);
      }
    }
  }

  lemma NotAbove(t: Table, pid: int, a: int, b: int, q: int, m: nat, n: nat)
    requires Forest(t) && pid in t.procs && m <= n
    requires a in t.procs[pid].children && b in t.procs[pid].children && a != b
    requires Ancestor(t, q, m) == a
    ensures Ancestor(t, q, n) != b
  {
    var rank :| Ranked(t, rank);
    assert GoodChildren(t, pid) && GoodRank(t, rank, pid) && GoodRank(t, rank, b);
    AncestorAdds(t, q, m, n - m);
    if m < n {
      assert Ancestor(t, a, n - m) == Ancestor(t, pid, n - m - 1);
      AncestorRank(t, rank, pid, n - m - 1);
    }
  }

  /** A proper descendant lies below one of the children. */
  lemma {:induction false} BelowSomeChild(t: Table, pid: int, q: int, n: nat)
    requires Forest(t) && pid in t.procs && !IsRoot(t, pid) && q in t.procs && q != pid && Ancestor(t, q, n) == pid
    ensures exists i :: 0 <= i < |t.procs[pid].children| && q in Subtree(t, t.procs[pid].children[i])
    decreases n
  {
    var rank :| Ranked(t, rank);
    AncestorRank(t, rank, q, n - 1);
    AncestorAdds(t, q, n - 1, 1);
    var c := Ancestor(t, q, n - 1);
    assert GoodParent(t, c);
    assert Ancestor(t, c, 1) == Ancestor(t, t.procs[c].ppid, 0);
    if c == pid {
      BelowSomeChild(t, pid, q, n - 1);
    } else {
      var i :| 0 <= i < |t.procs[pid].children| && t.procs[pid].children[i] == c;
      assert q in Subtree(t, c);
    }
  }

  /** A subtree is its top plus the subtrees of the children, each within the whole and without the top. */
  lemma SubtreeSplit(t: Table, pid: int)
    requires Forest(t) && pid in t.procs && !IsRoot(t, pid)
    ensures Subtree(t, pid) == {pid} + ChildSubtrees(t, pid, |t.procs[pid].children|)
    ensures forall i :: 0 <= i < |t.procs[pid].children| ==>
              Subtree(t, t.procs[pid].children[i]) <= Subtree(t, pid) - {pid}
  {
    var cs := t.procs[pid].children;
    assert GoodChildren(t, pid);
    assert Ancestor(t, pid, 0) == pid;
    forall i | 0 <= i < |cs| ensures Subtree(t, cs[i]) <= Subtree(t, pid) - {pid} {
      ChildSubtreeWithin(t, pid, cs[i]);
    }
    forall q ensures q in Subtree(t, pid) <==> q == pid || q in ChildSubtrees(t, pid, |cs|) {
      InChildSubtrees(t, pid, |cs|, q);
      if q in Subtree(t, pid) && q != pid {
        var n: nat :| Ancestor(t, q, n) == pid;
        BelowSomeChild(t, pid, q, n);
      }
    }
  }

  /** What the loop over the children needs to know about the next one. */
  lemma NextChild(t: Table, pid: int, k: nat)
    requires Forest(t) && pid in t.procs && !IsRoot(t, pid) && k < |t.procs[pid].children|
    ensures pid in Subtree(t, pid)
    ensures var c := t.procs[pid].children[k];
      && c in t.procs && !IsRoot(t, c) && c in Subtree(t, c)
      && Subtree(t, c) < Subtree(t, pid)
      && Subtree(t, c) <= Subtree(t, pid) - {pid} - ChildSubtrees(t, pid, k)
  {
    var c := t.procs[pid].children[k];
    assert GoodChildren(t, pid) && c in t.procs[pid].children;
    SubtreeSplit(t, pid);
    SubtreeBranch(t, c);
    assert pid in Subtree(t, pid) && pid !in Subtree(t, c);
    forall q | q in Subtree(t, c) ensures q !in ChildSubtrees(t, pid, k) {
      InChildSubtrees(t, pid, k, q);
      if q in ChildSubtrees(t, pid, k) {
        var i :| 0 <= i < k && q in Subtree(t, t.procs[pid].children[i]);
        SiblingsDisjoint(t, pid, i, k);
      }
    }
  }

  lemma ChildSubtreeWithin(t: Table, pid: int, c: int)
    requires Forest(t) && pid in t.procs && c in t.procs[pid].children
    ensures Subtree(t, c) <= Subtree(t, pid) - {pid}
  {
    assert GoodChildren(t, pid);
    SubtreeBranch(t, c);
    forall q | q in Subtree(t, c) ensures q in Subtree(t, pid) {
      var n: nat :| Ancestor(t, q, n) == c;
      AncestorAdds(t, q, n, 1);
      assert Ancestor(t, c, 1) == Ancestor(t, pid, 0);
      assert Ancestor(t, q, n + 1) == pid;
    }
  }

  lemma DropForest(t: Table, pid: int)
    requires Forest(t) && !IsRoot(t, pid)
    ensures Forest(Drop(t, pid))
  {
    if pid in t.procs {
      SubtreeBranch(t, pid);
      ForgetForest(t, pid, Subtree(t, pid));
    }
  }

  lemma {:induction false} WithoutSame(s: seq<int>, a: set<int>, b: set<int>)
    requires forall i :: 0 <= i < |s| ==> (s[i] in a <==> s[i] in b)
    ensures Without(s, a) == Without(s, b)
  {
    if s != [] {
      var tail := s[1..];
      assert forall i :: 0 <= i < |tail| ==> tail[i] == s[i + 1];
      WithoutSame(tail, a, b);
    }
  }

  /** A child of a process that stays goes only if it is the one being dropped. */
  lemma StayingChild(t: Table, pid: int, q: int, i: nat)
    requires Forest(t) && pid in t.procs && !IsRoot(t, pid)
    requires q in t.procs && q !in Subtree(t, pid) && i < |t.procs[q].children|
    ensures var c := t.procs[q].children[i];
      && (c in Subtree(t, pid) <==> c == pid)
      && (c == pid ==> q == t.procs[pid].ppid)
  {
    hide Subtree;
    SubtreeBranch(t, pid);
    assert GoodChildren(t, q);
    var c := t.procs[q].children[i];
    assert c in t.procs[q].children;
  }

  /** The survivors keep everything but the dropped entries of their child lists. */
  lemma DropKeeps(t: Table, pid: int, q: int)
    requires Forest(t) && pid in t.procs && !IsRoot(t, pid) && q in Drop(t, pid).procs
    ensures q in t.procs
    ensures Drop(t, pid).procs[q] == t.procs[q].(children := Without(t.procs[q].children, Subtree(t, pid)))
  {
    hide Subtree;
    var cs := t.procs[q].children;
    forall i | 0 <= i < |cs| ensures cs[i] in Subtree(t, pid) <==> cs[i] in {pid} {
      StayingChild(t, pid, q, i);
    }
    WithoutSame(cs, Subtree(t, pid), {pid});
    if q == t.procs[pid].ppid {
      assert GoodChildren(t, q);
      RemoveFirstIsWithout(cs, pid);
    } else {
      forall i | 0 <= i < |cs| ensures cs[i] !in {pid} {
        StayingChild(t, pid, q, i);
      }
      WithoutNothing(cs, {pid});
    }
  }

  /**
   Dropping a process removes it and its descendants from the table, the ready list and
   all child lists, and changes nothing else, not even an order.
   */
  lemma DropIsExact(t: Table, pid: int)
    requires Forest(t) && pid in t.procs && !IsRoot(t, pid)
    ensures var u, gone := Drop(t, pid), Subtree(t, pid);
      && pid in gone && u.procs.Keys == t.procs.Keys - gone
      && u.ready == Without(t.ready, gone) && u.self == t.self
      && (forall q :: q in u.procs ==>
            q in t.procs && u.procs[q] == t.procs[q].(children := Without(t.procs[q].children, gone)))
  {
    SubtreeBranch(t, pid);
    assert GoodParent(t, pid);
    forall q | q in Drop(t, pid).procs
      ensures q in t.procs
      ensures Drop(t, pid).procs[q] == t.procs[q].(children := Without(t.procs[q].children, Subtree(t, pid)))
    {
      DropKeeps(t, pid, q);
    }
  }

  lemma IngestSelf(t: Table, ev: Event, drop: bool)
    requires INIT_PID in t.procs && (ev.Exit? ==> ev.pid != INIT_PID)
    ensures Ingest(t, ev, drop).self == t.self
  {
    hide Subtree;
  }

  // ----- whole runs -----

  /** One step of a run: an event with the callback's answer, a collection, or a drop by the monitor. */
  datatype Op = Handle(ev: Event, drop: bool) | Reap | Forsake(pid: int)

  predicate Allowed(t: Table, op: Op) {
    match op
    case Handle(ev, drop) => WellFormed(t, ev, drop)
    case Reap => true
    case Forsake(pid) => !IsRoot(t, pid)
  }

  ghost function Apply(t: Table, op: Op): (r: Table)
    requires Forest(t) && Allowed(t, op)
  {
    match op
    case Handle(ev, drop) => Ingest(t, ev, drop)
    case Reap => Collect(t).0
    case Forsake(pid) => Drop(t, pid)
  }

  lemma ApplyForest(t: Table, op: Op)
    requires Forest(t) && Allowed(t, op)
    ensures Forest(Apply(t, op))
  {
    match op
    case Reap => CollectForest(t);
    case Forsake(pid) => DropForest(t, pid);
    case Handle(ev, drop) =>
      match ev {
        case Fork(parent, child, tid) =>
          if parent in t.procs && child == tid && parent != INIT_PID {
            InsertForest(t, child, parent);
          }
        case Setsid(pid) =>
          if pid in t.procs {
            SetsidForest(t, pid);
            DropForest(Insert(t, pid, 0, pid).0, pid);
          }
        case Exec(pid) => if drop { DropForest(t, pid); }
        case Exit(pid, code, last) => if pid in t.procs && last { ExitForest(t, pid, code); }
        case _ =>
      }
  }

  /** Every operation was allowed in the state it met, and `t` is the state at the end. */
  ghost predicate Reaches(t0: Table, ops: seq<Op>, t: Table)
    requires Forest(t0)
    decreases |ops|
  {
    if ops == [] then t == t0
    else
      && Allowed(t0, ops[0])
      && (ApplyForest(t0, ops[0]); Reaches(Apply(t0, ops[0]), ops[1..], t))
  }

  lemma {:induction false} EveryRunKeepsForest(t0: Table, ops: seq<Op>, t: Table)
    requires Forest(t0) && Reaches(t0, ops, t)
    ensures Forest(t)
    decreases |ops|
  {
    if ops != [] {
      ApplyForest(t0, ops[0]);
      EveryRunKeepsForest(Apply(t0, ops[0]), ops[1..], t);
    }
  }
}
