/** Short lives of a service, worked out step by step, from which whole runs can be put together. */
module Scenarios {
  import opened Basics
  import opened ProcessTable
  import opened ProcessForest
  import opened Watch
  import opened WatchProofs
  import opened Limiter
  import opened Monitor
  import opened MonitorProofs
  import opened LimitProofs
  import Timespan

  // ----- a service that comes and goes -----

  /** The events of a child that is forked and exits. */
  function ComesAndGoes(c: Config, child: int, code: int): (evs: seq<Event>) {
    [Fork(c.self, child, child), Exit(child, code, true)]
  }

  /** The tracker once such a child is ready to be collected. */
  function Gone(c: Config, child: int, code: int): (t: Table) {
    Table(map[INIT_PID := Proc(INIT_PID, INIT_PID, [], -1),
              c.self := Proc(c.self, c.selfSid, [child], -1),
              child := Proc(c.self, c.selfSid, [], code)], [child], c.self)
  }

  predicate Ordinary(c: Config, child: int) {
    c.self != INIT_PID && c.self != 0 && child > 0 && child != INIT_PID && child != c.self
  }

  lemma ChildInserted(c: Config, child: int)
    requires Ordinary(c, child)
    ensures Insert(Initial(c.self, c.selfSid), child, c.self, 0).0.procs == map[
        INIT_PID := Proc(INIT_PID, INIT_PID, [], -1),
        c.self := Proc(c.self, c.selfSid, [child], -1),
        child := Proc(c.self, c.selfSid, [], -1)]
  {
    var none: seq<int> := [];
    assert none + [child] == [child];
  }

  lemma ChildExits(c: Config, child: int, code: int)
    requires Ordinary(c, child)
    ensures var t := Insert(Initial(c.self, c.selfSid), child, c.self, 0).0;
      child in t.procs && INIT_PID in t.procs && t.ready == [] && t.self == c.self
      && ExitProcess(t, child, code) == Gone(c, child, code)
  {
    hide Insert;
    ChildInserted(c, child);
    InsertKeepsRest(Initial(c.self, c.selfSid), child, c.self);
    var t := Insert(Initial(c.self, c.selfSid), child, c.self, 0).0;
    var none: seq<int> := [];
    assert none + none == none && none + [child] == [child];
    assert ExitProcess(t, child, code).procs == Gone(c, child, code).procs;
  }

  lemma InsertKeepsRest(t: Table, pid: int, ppid: int)
    requires INIT_PID in t.procs
    ensures Insert(t, pid, ppid, 0).0.ready == t.ready && Insert(t, pid, ppid, 0).0.self == t.self
  {
  }

  lemma ChildTracked(c: Config, child: int, code: int)
    requires Ordinary(c, child)
    ensures Forest(Initial(c.self, c.selfSid))
    ensures TrackAll(c, Tracking(Initial(c.self, c.selfSid), c.selfSid), ComesAndGoes(c, child, code))
         == Tracking(Gone(c, child, code), c.selfSid)
  {
    hide Insert, ExitProcess, Forest, Drop;
    InitialForest(c.self, c.selfSid);
    ChildExits(c, child, code);
    var k, evs := Tracking(Initial(c.self, c.selfSid), c.selfSid), ComesAndGoes(c, child, code);
    var k1 := Track(c, k, evs[0]);
    assert evs[1..] == [evs[1]];
    var k2 := Track(c, k1, evs[1]);
    assert TrackAll(c, k1, [evs[1]]) == TrackAll(c, k2, []);
  }

  lemma ChildCollected(c: Config, child: int, code: int, mon: Mon)
    requires Ordinary(c, child) && Forest(Gone(c, child, code))
    ensures var h := CollectAll(c, Harvest(Gone(c, child, code), mon, 0));
      h.mon == Account(c, mon, child, code) && h.last == child && |h.t.procs| == 2
  {
    hide Forest, Account;
    var t := Gone(c, child, code);
    assert t.procs.Keys == {INIT_PID, c.self, child};
    assert |t.procs| == |t.procs.Keys|;
    CollectForest(t);
    var u := Collect(t).0;
    assert u.procs.Keys == {INIT_PID, c.self};
    assert |u.procs| == |u.procs.Keys|;
  }

  lemma GoneIsForest(c: Config, child: int, code: int)
    requires Ordinary(c, child)
    ensures Forest(Gone(c, child, code))
  {
    hide TrackAll, Forest;
    ChildTracked(c, child, code);
  }

  /** A service that was just started with the given child, seen by a watch that just began. */
  predicate Fresh(c: Config, w: Watch, child: int) {
    && w.t == Initial(c.self, c.selfSid) && w.last == 0
    && w.mon.child == child && w.mon.sid == c.selfSid && w.mon.wstatus == -1
    && w.mon.pid == (if c.kind.Forking? then 0 else child)
  }

  /** The watch ends when the only child has come and gone, whatever the kind of service. */
  lemma VisitEnds(c: Config, w: Watch, child: int, code: nat)
    requires Ordinary(c, child) && Fresh(c, w, child)
    ensures Forest(w.t)
    ensures var (v, out) := Digest(c, w, Batch(ComesAndGoes(c, child, code), false, 0));
      && out == Left(true) && v.orders == w.orders && v.clock == w.clock
      && v.mon.state == (if ReportsLate(c.kind) then Running else w.mon.state)
      && v.mon.wstatus == (if c.kind.Forking? then -1 else code)
      && v.mon.pid == w.mon.pid
  {
    hide TrackAll, CollectAll, Forest, Initial, Gone, ComesAndGoes;
    ChildTracked(c, child, code);
    GoneIsForest(c, child, code);
    ChildCollected(c, child, code, w.mon);
  }

  /** What the poll of such a visit looks like. */
  function Visit(c: Config, control: Option<Session>, child: int, code: nat): (p: Poll) {
    Poll(false, 0, control, Some(Batch(ComesAndGoes(c, child, code), false, 0)))
  }

  lemma VisitLoop(c: Config, mon: Mon, clock: nat, control: Option<Session>, child: int, code: nat)
    requires Ordinary(c, child) && Fresh(c, Begin(mon, Initial(c.self, c.selfSid), clock), child)
    requires clock <= c.stopTimeout && (control.Some? ==> control.value.ok)
    ensures Forest(Initial(c.self, c.selfSid))
    ensures var (v, out) := Loop(c, Begin(mon, Initial(c.self, c.selfSid), clock), [Visit(c, control, child, code)]);
      var rs := if control.Some? then control.value.requests else [];
      && out == Left(true) && v.orders == Orders(rs) && v.clock == clock
      && v.mon.state == (if ReportsLate(c.kind) then Running else ObeyAll(mon.state, rs))
      && v.mon.wstatus == (if c.kind.Forking? then -1 else code)
      && v.mon.pid == mon.pid
  {
    hide Digest, Forest, Initial, ComesAndGoes, Escalate;
    InitialForest(c.self, c.selfSid);
    var p, w := Visit(c, control, child, code), Begin(mon, Initial(c.self, c.selfSid), clock);
    var v := Attend(c, w, p).0;
    assert v.orders == if control.Some? then [] + Orders(control.value.requests) else [];
    VisitEnds(c, v, child, code);
  }

  /** The state after a start whose child comes and goes with exit code 0. */
  function AfterVisit(c: Config, m: Monitor, rs: seq<Request>): (s: State) {
    var state := if ReportsLate(c.kind) then Running
                 else ObeyAll(if ReadyAtOnce(c.kind) then Running else m.mon.state, rs);
    Decide(c, Mon(state, 0, 0, 0, if c.kind.Forking? then -1 else 0))
  }

  /** Starting a service whose child comes and goes completes a turn. */
  lemma VisitTurn(c: Config, m: Monitor, turn: Turn, control: Option<Session>)
    requires Sound(c, m) && m.t == Initial(c.self, c.selfSid)
    requires Ordinary(c, turn.child) && (c.kind.Forking? ==> m.mon.pid == 0)
    requires turn.polls == [Visit(c, control, turn.child, 0)]
    requires m.clock + turn.forking <= c.stopTimeout && (control.Some? ==> control.value.ok)
    ensures var (n, done) := Launch(c, m, turn);
      var rs := if control.Some? then control.value.requests else [];
      && done && n.t == m.t && n.clock == m.clock + turn.forking && n.limiter == m.limiter
      && n.trace == m.trace + [Forked(m.clock + turn.forking)] + Marks(Orders(rs))
      && n.mon.state == AfterVisit(c, m, rs)
      && (c.kind.Forking? ==> n.mon.pid == 0)
  {
    hide Loop, Forest, Initial, Visit, ObeyAll, Orders, Marks, UncleanExit, UncleanSignal;
    var n := Started(c, m, turn);
    VisitLoop(c, n.mon, n.clock, control, turn.child, 0);
  }

  /** A wait whose deadline passes undisturbed. */
  lemma RestExpires(m: Monitor, deadline: nat, elapsed: nat)
    requires Forest(m.t) && 0 < deadline <= m.clock + elapsed
    ensures Rest(m, deadline, [Poll(false, elapsed, None, None)])
         == (m.(clock := m.clock + elapsed), Over)
  {
    assert m.trace + Marks([]) == m.trace;
  }

  /** A restart that the limiter lets pass, up to the fork. */
  lemma ResumeLaunches(c: Config, m: Monitor, turn: Turn, n: Monitor)
    requires c.self != INIT_PID && Sound(c, m) && m.mon.state.Restarting?
    requires 0 < m.clock + turn.elapsed + c.delay < Timespan.U64
    requires n == Throttle(c, m.(clock := m.clock + turn.elapsed), m.clock + turn.elapsed + c.delay)
    requires n.mon.state.Restarting? && turn.waits == [Poll(false, c.delay, None, None)]
    ensures Resume(c, m, turn) == Launch(c, n.(clock := n.clock + c.delay), turn)
  {
    hide Throttle, Launch, Rest;
    NoWrap(m.clock + turn.elapsed + c.delay);
    ThrottleTimes(c, m.(clock := m.clock + turn.elapsed), m.clock + turn.elapsed + c.delay);
    RestExpires(n, m.clock + turn.elapsed + c.delay, c.delay);
  }

  // ----- a service that slips away -----

  /** The child of a service starts a process that ends, and then leaves for a session of its own. */
  predicate Distinct(c: Config, child: int, other: int) {
    Ordinary(c, child) && Ordinary(c, other) && other != child && other != c.selfSid
  }

  function Node(c: Config, children: seq<int>): (p: Proc) {
    Proc(c.self, c.selfSid, children, -1)
  }

  /** The child and its own child, the latter in session `sid` and with the given status. */
  function Family(c: Config, child: int, other: int, sid: int, wstatus: int, ready: seq<int>): (t: Table) {
    Table(map[INIT_PID := Proc(INIT_PID, INIT_PID, [], -1), c.self := Node(c, [child]),
              child := Node(c, [other]), other := Proc(child, sid, [], wstatus)], ready, c.self)
  }

  /** The child alone, in session `sid`. */
  function Alone(c: Config, child: int, sid: int): (t: Table) {
    Table(map[INIT_PID := Proc(INIT_PID, INIT_PID, [], -1), c.self := Node(c, [child]),
              child := Node(c, []).(sid := sid)], [], c.self)
  }

  lemma AloneInserted(c: Config, child: int)
    requires Ordinary(c, child)
    ensures Insert(Initial(c.self, c.selfSid), child, c.self, 0).0 == Alone(c, child, c.selfSid)
  {
    hide Insert;
    ChildInserted(c, child);
    InsertKeepsRest(Initial(c.self, c.selfSid), child, c.self);
  }

  lemma FamilyInserted(c: Config, child: int, other: int)
    requires Distinct(c, child, other)
    ensures Insert(Alone(c, child, c.selfSid), other, child, 0).0 == Family(c, child, other, c.selfSid, -1, [])
  {
    var none: seq<int> := [];
    assert none + [other] == [other];
    var t := Insert(Alone(c, child, c.selfSid), other, child, 0).0;
    assert t.procs == Family(c, child, other, c.selfSid, -1, []).procs;
  }

  lemma FamilySession(c: Config, child: int, other: int)
    requires Distinct(c, child, other)
    ensures Insert(Family(c, child, other, c.selfSid, -1, []), other, 0, other).0
         == Family(c, child, other, other, -1, [])
  {
    var t := Insert(Family(c, child, other, c.selfSid, -1, []), other, 0, other).0;
    assert t.procs == Family(c, child, other, other, -1, []).procs;
  }

  lemma FamilyExit(c: Config, child: int, other: int, sid: int)
    requires Distinct(c, child, other)
    ensures ExitProcess(Family(c, child, other, sid, -1, []), other, 0) == Family(c, child, other, sid, 0, [other])
  {
    var none: seq<int> := [];
    assert none + none == none && none + [other] == [other];
    var t := ExitProcess(Family(c, child, other, sid, -1, []), other, 0);
    assert t.procs == Family(c, child, other, sid, 0, [other]).procs;
  }

  lemma FamilyCollect(c: Config, child: int, other: int, sid: int)
    requires Distinct(c, child, other)
    ensures var t := Family(c, child, other, sid, 0, [other]);
      (forall p :: p in t.ready ==> p in t.procs)
      && Collect(t) == (Alone(c, child, c.selfSid), Process(other, t.procs[other]))
  {
    var t := Family(c, child, other, sid, 0, [other]);
    assert t.procs.Keys == {INIT_PID, c.self, child, other};
    assert |t.procs| == |t.procs.Keys|;
    assert RemoveFirst([other], other) == [];
    assert t.ready[1..] == [];
    var u := Collect(t).0;
    assert u.procs == Alone(c, child, c.selfSid).procs;
  }

  lemma AloneCollect(c: Config, child: int)
    requires Ordinary(c, child)
    ensures var t := Alone(c, child, c.selfSid); |t.procs| == 3 && Collect(t) == (t, Again)
  {
    var t := Alone(c, child, c.selfSid);
    assert t.procs.Keys == {INIT_PID, c.self, child};
    assert |t.procs| == |t.procs.Keys|;
  }

  lemma AloneLeaves(c: Config, child: int)
    requires Ordinary(c, child) && Forest(Alone(c, child, c.selfSid))
    ensures var t := Insert(Alone(c, child, c.selfSid), child, 0, child).0;
      |Drop(t, child).procs| == 2
  {
    hide Forest, Insert, Drop;
    var s := Alone(c, child, c.selfSid);
    SetsidForest(s, child);
    SetsidSessions(s, child);
    InsertKeepsRest2(s, child);
    var t := Insert(s, child, 0, child).0;
    DropIsExact(t, child);
    SubtreeBranch(t, child);
    var u := Drop(t, child);
    assert s.procs.Keys == {INIT_PID, c.self, child};
    assert u.procs.Keys == {INIT_PID, c.self};
    assert |u.procs| == |u.procs.Keys|;
  }

  lemma InsertKeepsRest2(t: Table, pid: int)
    requires INIT_PID in t.procs
    ensures Insert(t, pid, 0, pid).0.ready == t.ready && Insert(t, pid, 0, pid).0.self == t.self
  {
  }

  /** The session of the other process, and what the monitor takes for the service's. */
  function OtherSid(c: Config, other: int): (sid: int) {
    if c.kind.Forking? then other else c.selfSid
  }

  function SlipsAway(c: Config, child: int, other: int): (evs: seq<Event>) {
    var forks := [Fork(c.self, child, child), Fork(child, other, other)];
    forks + (if c.kind.Forking? then [Setsid(other)] else []) + [Exit(other, 0, true)]
  }

  lemma TrackCons(c: Config, k: Tracking, ev: Event, evs: seq<Event>)
    requires Forest(k.t)
    ensures TrackAll(c, k, [ev] + evs) == TrackAll(c, Track(c, k, ev), evs)
  {
    hide Track, Forest;
    assert ([ev] + evs)[1..] == evs;
  }

  lemma TrackFork(c: Config, k: Tracking, parent: int, child: int)
    requires Forest(k.t) && parent in k.t.procs && parent != INIT_PID && k.t.ready == []
    ensures Track(c, k, Fork(parent, child, child)) == Tracking(Insert(k.t, child, parent, 0).0, k.sid)
  {
    hide Insert, Forest;
  }

  lemma TrackExit(c: Config, k: Tracking, pid: int)
    requires Forest(k.t) && pid in k.t.procs && !IsRoot(k.t, pid) && k.t.ready == []
    ensures INIT_PID in k.t.procs
    ensures Track(c, k, Exit(pid, 0, true)) == Tracking(ExitProcess(k.t, pid, 0), k.sid)
  {
    hide ExitProcess, GoodChildren, GoodParent;
  }

  lemma TrackSession(c: Config, k: Tracking, pid: int)
    requires Forest(k.t) && pid in k.t.procs && !IsRoot(k.t, pid)
    ensures INIT_PID in k.t.procs
    ensures var t := Insert(k.t, pid, 0, pid).0;
      Track(c, k, Setsid(pid))
      == if Drops(c, k.sid, Setsid(pid)) then Tracking(Drop(t, pid), k.sid) else Tracking(t, pid)
  {
    hide Insert, Drop, GoodChildren, GoodParent;
  }

  lemma FamilyForks(c: Config, child: int, other: int, evs: seq<Event>)
    requires Distinct(c, child, other)
    ensures Forest(Initial(c.self, c.selfSid)) && Forest(Family(c, child, other, c.selfSid, -1, []))
    ensures TrackAll(c, Tracking(Initial(c.self, c.selfSid), c.selfSid),
                     [Fork(c.self, child, child)] + ([Fork(child, other, other)] + evs))
         == TrackAll(c, Tracking(Family(c, child, other, c.selfSid, -1, []), c.selfSid), evs)
  {
    hide Insert, Forest, TrackAll, Track;
    var k := Tracking(Initial(c.self, c.selfSid), c.selfSid);
    InitialForest(c.self, c.selfSid);
    TrackCons(c, k, Fork(c.self, child, child), [Fork(child, other, other)] + evs);
    TrackFork(c, k, c.self, child);
    AloneInserted(c, child);
    var k1 := Track(c, k, Fork(c.self, child, child));
    TrackCons(c, k1, Fork(child, other, other), evs);
    TrackFork(c, k1, child, other);
    FamilyInserted(c, child, other);
  }

  lemma FamilyEnds(c: Config, child: int, other: int, sid: int, k: Tracking)
    requires Distinct(c, child, other) && Forest(k.t) && k.t == Family(c, child, other, sid, -1, [])
    ensures TrackAll(c, k, [Exit(other, 0, true)]) == Tracking(Family(c, child, other, sid, 0, [other]), k.sid)
    ensures Forest(Family(c, child, other, sid, 0, [other]))
  {
    hide Forest, TrackAll, Track;
    assert [Exit(other, 0, true)] == [Exit(other, 0, true)] + [];
    TrackCons(c, k, Exit(other, 0, true), []);
    TrackExit(c, k, other);
    FamilyExit(c, child, other, sid);
    TrackNothing(c, Track(c, k, Exit(other, 0, true)));
  }

  lemma TrackNothing(c: Config, k: Tracking)
    requires Forest(k.t)
    ensures TrackAll(c, k, []) == k
  {
  }

  lemma FamilyTracked(c: Config, child: int, other: int)
    requires Distinct(c, child, other)
    ensures Forest(Initial(c.self, c.selfSid))
    ensures var t := Family(c, child, other, OtherSid(c, other), 0, [other]);
      && Forest(t)
      && TrackAll(c, Tracking(Initial(c.self, c.selfSid), c.selfSid), SlipsAway(c, child, other))
         == Tracking(t, OtherSid(c, other))
  {
    hide Forest, TrackAll, Track, Insert;
    var k := Tracking(Family(c, child, other, c.selfSid, -1, []), c.selfSid);
    var exit := [Exit(other, 0, true)];
    if c.kind.Forking? {
      FamilyForks(c, child, other, [Setsid(other)] + exit);
      assert SlipsAway(c, child, other)
          == [Fork(c.self, child, child)] + ([Fork(child, other, other)] + ([Setsid(other)] + exit));
      TrackCons(c, k, Setsid(other), exit);
      TrackSession(c, k, other);
      FamilySession(c, child, other);
      FamilyEnds(c, child, other, other, Track(c, k, Setsid(other)));
    } else {
      FamilyForks(c, child, other, exit);
      assert SlipsAway(c, child, other) == [Fork(c.self, child, child)] + ([Fork(child, other, other)] + exit);
      FamilyEnds(c, child, other, c.selfSid, k);
    }
  }

  lemma FamilyCollected(c: Config, child: int, other: int, sid: int, mon: Mon)
    requires Distinct(c, child, other) && Forest(Family(c, child, other, sid, 0, [other]))
    requires mon.child != other && mon.pid != other
    ensures CollectAll(c, Harvest(Family(c, child, other, sid, 0, [other]), mon, 0))
         == Harvest(Alone(c, child, c.selfSid), mon, other)
    ensures Forest(Alone(c, child, c.selfSid))
  {
    hide Forest, Collect;
    var t := Family(c, child, other, sid, 0, [other]);
    CollectForest(t);
    FamilyCollect(c, child, other, sid);
    AloneCollect(c, child);
  }

  /** After the first batch the child is alone, and the monitor has collected the other process. */
  lemma SlipStarts(c: Config, w: Watch, child: int, other: int)
    requires Distinct(c, child, other) && Fresh(c, w, child)
    ensures Forest(w.t) && Forest(Alone(c, child, c.selfSid))
    ensures Digest(c, w, Batch(SlipsAway(c, child, other), false, 0))
         == (w.(mon := w.mon.(sid := OtherSid(c, other)), t := Alone(c, child, c.selfSid), last := other), Going)
  {
    hide TrackAll, CollectAll, Forest, Initial, Family, SlipsAway;
    FamilyTracked(c, child, other);
    FamilyCollected(c, child, other, OtherSid(c, other), w.mon.(sid := OtherSid(c, other)));
    AloneCollect(c, child);
  }

  lemma CollectNothing(c: Config, h: Harvest)
    requires Forest(h.t) && |h.t.procs| == 2
    ensures CollectAll(c, h) == h
  {
    hide Forest;
  }

  /** With the second batch the child is dropped, nothing is left, and the watch ends as it began. */
  lemma SlipEnds(c: Config, w: Watch, child: int, other: int)
    requires Distinct(c, child, other) && w.t == Alone(c, child, c.selfSid) && Forest(w.t) && w.last == other
    requires w.mon.child == child && w.mon.sid == OtherSid(c, other) && w.mon.wstatus == -1
    ensures var (v, out) := Digest(c, w, Batch([Setsid(child)], false, 0));
      out == Left(true) && v.orders == w.orders && v.clock == w.clock && v.mon == w.mon
  {
    hide Insert, Drop, Forest, CollectAll, Track, TrackAll;
    var k := Tracking(w.t, w.mon.sid);
    assert [Setsid(child)] == [Setsid(child)] + [];
    TrackCons(c, k, Setsid(child), []);
    TrackSession(c, k, child);
    AloneLeaves(c, child);
    TrackNothing(c, Track(c, k, Setsid(child)));
    CollectNothing(c, Harvest(Track(c, k, Setsid(child)).t, w.mon, w.last));
  }

  /** The two polls of a service that slips away. */
  function Slip(c: Config, child: int, other: int): (ps: seq<Poll>) {
    [Poll(false, 0, None, Some(Batch(SlipsAway(c, child, other), false, 0))),
     Poll(false, 0, None, Some(Batch([Setsid(child)], false, 0)))]
  }

  lemma SlipLoop(c: Config, mon: Mon, clock: nat, child: int, other: int)
    requires Distinct(c, child, other) && Fresh(c, Begin(mon, Initial(c.self, c.selfSid), clock), child)
    requires clock <= c.stopTimeout
    ensures Forest(Initial(c.self, c.selfSid))
    ensures var (v, out) := Loop(c, Begin(mon, Initial(c.self, c.selfSid), clock), Slip(c, child, other));
      out == Left(true) && v.orders == [] && v.clock == clock && v.mon == mon.(sid := OtherSid(c, other))
  {
    hide Digest, Forest, Initial, SlipsAway, Escalate, Alone, Loop;
    InitialForest(c.self, c.selfSid);
    var w, ps := Begin(mon, Initial(c.self, c.selfSid), clock), Slip(c, child, other);
    SlipStarts(c, w, child, other);
    assert Iterate(c, w, ps[0]) == Digest(c, w, ps[0].batch.value);
    var v := Iterate(c, w, ps[0]).0;
    SlipEnds(c, v, child, other);
    assert Iterate(c, v, ps[1]) == Digest(c, v, ps[1].batch.value);
    LoopTwo(c, w, ps);
  }

  lemma LoopTwo(c: Config, w: Watch, ps: seq<Poll>)
    requires Forest(w.t) && |ps| == 2 && Iterate(c, w, ps[0]).1.Going?
    ensures Loop(c, w, ps) == Iterate(c, Iterate(c, w, ps[0]).0, ps[1])
  {
    hide Iterate, Forest;
    var v, rest := Iterate(c, w, ps[0]).0, ps[1..];
    var (x, out) := Iterate(c, v, ps[1]);
    assert rest[0] == ps[1] && rest[1..] == [];
    if out.Going? {
      assert Loop(c, x, []) == (x, Going);
    }
    assert Loop(c, v, rest) == (x, out);
  }

  /** Starting a service that slips away completes a turn, in the state in which the watch began. */
  lemma SlipTurn(c: Config, m: Monitor, turn: Turn, other: int)
    requires Sound(c, m) && m.t == Initial(c.self, c.selfSid) && m.mon.state.Starting? && !ReadyAtOnce(c.kind)
    requires Distinct(c, turn.child, other) && (c.kind.Forking? ==> m.mon.pid == 0)
    requires turn.polls == Slip(c, turn.child, other) && m.clock + turn.forking <= c.stopTimeout
    ensures var (n, done) := Launch(c, m, turn);
      && done && n.t == m.t && n.clock == m.clock + turn.forking && n.limiter == m.limiter
      && n.trace == m.trace + [Forked(m.clock + turn.forking)] && n.mon.state.Starting?
  {
    hide Loop, Forest, Initial, Slip;
    var n := Started(c, m, turn);
    SlipLoop(c, n.mon, n.clock, turn.child, other);
    assert n.trace + Marks([]) == n.trace;
  }

  // ----- the life of a forking service -----

  /** The child has exited and waits to be collected; the process it started belongs to init. */
  function Orphaned(c: Config, child: int, other: int): (t: Table) {
    Table(map[INIT_PID := Proc(INIT_PID, INIT_PID, [other], -1), c.self := Node(c, [child]),
              child := Proc(c.self, c.selfSid, [], 0), other := Proc(INIT_PID, c.selfSid, [], -1)], [child], c.self)
  }

  /** Only that process is left. */
  function Orphan(c: Config, other: int, wstatus: int, ready: seq<int>): (t: Table) {
    Table(map[INIT_PID := Proc(INIT_PID, INIT_PID, [other], -1), c.self := Node(c, []),
              other := Proc(INIT_PID, c.selfSid, [], wstatus)], ready, c.self)
  }

  lemma ParentExit(c: Config, child: int, other: int)
    requires Distinct(c, child, other)
    ensures ExitProcess(Family(c, child, other, c.selfSid, -1, []), child, 0) == Orphaned(c, child, other)
  {
    var none: seq<int> := [];
    assert none + [other] == [other] && none + [child] == [child];
    var f := Family(c, child, other, c.selfSid, -1, []);
    var g := Put(f, child, f.procs[child].(wstatus := 0));
    assert g.procs[child].children == [other];
    var t, goal := ReparentChildren(g, child), Orphaned(c, child, other);
    forall q | q in goal.procs ensures q in t.procs && t.procs[q] == goal.procs[q] {
    }
    assert t.procs == goal.procs;
  }

  lemma ParentCollect(c: Config, child: int, other: int)
    requires Distinct(c, child, other)
    ensures var t := Orphaned(c, child, other);
      (forall p :: p in t.ready ==> p in t.procs)
      && Collect(t) == (Orphan(c, other, -1, []), Process(child, t.procs[child]))
  {
    var t := Orphaned(c, child, other);
    assert t.procs.Keys == {INIT_PID, c.self, child, other};
    assert |t.procs| == |t.procs.Keys|;
    assert RemoveFirst([child], child) == [];
    assert t.ready[1..] == [];
    var u := Collect(t).0;
    assert u.procs == Orphan(c, other, -1, []).procs;
  }

  lemma OrphanStays(c: Config, other: int)
    requires Ordinary(c, other)
    ensures var t := Orphan(c, other, -1, []); |t.procs| == 3 && Collect(t) == (t, Again)
  {
    var t := Orphan(c, other, -1, []);
    assert t.procs.Keys == {INIT_PID, c.self, other};
    assert |t.procs| == |t.procs.Keys|;
  }

  lemma OrphanExit(c: Config, other: int)
    requires Ordinary(c, other)
    ensures ExitProcess(Orphan(c, other, -1, []), other, 0) == Orphan(c, other, 0, [other])
  {
    var none: seq<int> := [];
    assert none + [other] == [other] && [other] + none == [other];
    var t := ExitProcess(Orphan(c, other, -1, []), other, 0);
    assert t.procs == Orphan(c, other, 0, [other]).procs;
  }

  lemma OrphanCollected(c: Config, other: int, mon: Mon, last: int)
    requires Ordinary(c, other) && Forest(Orphan(c, other, 0, [other])) && mon.pid == other && mon.child == 0
    ensures var h := CollectAll(c, Harvest(Orphan(c, other, 0, [other]), mon, last));
      h.mon == mon.(wstatus := 0)
  {
    hide Forest;
    var t := Orphan(c, other, 0, [other]);
    assert t.procs.Keys == {INIT_PID, c.self, other};
    assert |t.procs| == |t.procs.Keys|;
    CollectForest(t);
    var u := Collect(t).0;
    assert u.procs.Keys == {INIT_PID, c.self};
    assert |u.procs| == |u.procs.Keys|;
  }

  function Daemonizes(c: Config, child: int, other: int): (evs: seq<Event>) {
    [Fork(c.self, child, child), Fork(child, other, other), Exit(child, 0, true)]
  }

  lemma ParentTracked(c: Config, child: int, other: int)
    requires Distinct(c, child, other)
    ensures Forest(Initial(c.self, c.selfSid)) && Forest(Orphaned(c, child, other))
    ensures TrackAll(c, Tracking(Initial(c.self, c.selfSid), c.selfSid), Daemonizes(c, child, other))
         == Tracking(Orphaned(c, child, other), c.selfSid)
  {
    hide Forest, TrackAll, Track;
    var k, exit := Tracking(Family(c, child, other, c.selfSid, -1, []), c.selfSid), [Exit(child, 0, true)];
    FamilyForks(c, child, other, exit);
    assert Daemonizes(c, child, other) == [Fork(c.self, child, child)] + ([Fork(child, other, other)] + exit);
    assert exit == [Exit(child, 0, true)] + [];
    TrackCons(c, k, Exit(child, 0, true), []);
    TrackExit(c, k, child);
    ParentExit(c, child, other);
    TrackNothing(c, Track(c, k, Exit(child, 0, true)));
  }

  lemma ParentCollected(c: Config, child: int, other: int, mon: Mon)
    requires Distinct(c, child, other) && Forest(Orphaned(c, child, other)) && c.kind.Forking?
    requires mon.child == child && mon.pid != child
    ensures CollectAll(c, Harvest(Orphaned(c, child, other), mon, 0))
         == Harvest(Orphan(c, other, -1, []), mon.(child := 0, state := Running), child)
    ensures Forest(Orphan(c, other, -1, []))
  {
    hide Forest, Collect;
    CollectForest(Orphaned(c, child, other));
    ParentCollect(c, child, other);
    OrphanStays(c, other);
  }

  /** The child starts the main process and exits, which makes the service ready. */
  lemma DaemonStarts(c: Config, w: Watch, child: int, other: int)
    requires Distinct(c, child, other) && Fresh(c, w, child) && c.kind.Forking?
    ensures Forest(w.t) && Forest(Orphan(c, other, -1, []))
    ensures Digest(c, w, Batch(Daemonizes(c, child, other), false, 0))
         == (w.(mon := w.mon.(child := 0, state := Running), t := Orphan(c, other, -1, []), last := child), Going)
  {
    hide TrackAll, CollectAll, Forest, Initial, Orphaned, Daemonizes;
    ParentTracked(c, child, other);
    ParentCollected(c, child, other, w.mon);
    OrphanStays(c, other);
  }

  /** The main process is found through its pid file as it exits. */
  lemma DaemonEnds(c: Config, w: Watch, other: int)
    requires Ordinary(c, other) && c.kind.Forking? && c.pidfile
    requires w.t == Orphan(c, other, -1, []) && Forest(w.t)
    requires w.mon.child == 0 && w.mon.pid == 0 && w.mon.state.Running?
    ensures var (v, out) := Digest(c, w, Batch([Exit(other, 0, true)], false, other));
      && out == Left(true) && v.orders == w.orders && v.clock == w.clock
      && v.mon == w.mon.(pid := other, wstatus := 0)
  {
    hide Forest, CollectAll, Track, TrackAll, ExitProcess;
    var k := Tracking(w.t, w.mon.sid);
    assert [Exit(other, 0, true)] == [Exit(other, 0, true)] + [];
    TrackCons(c, k, Exit(other, 0, true), []);
    TrackExit(c, k, other);
    OrphanExit(c, other);
    var u := Track(c, k, Exit(other, 0, true));
    TrackNothing(c, u);
    OrphanCollected(c, other, w.mon.(pid := other), w.last);
  }

  function Daemon(c: Config, child: int, other: int): (ps: seq<Poll>) {
    [Poll(false, 0, None, Some(Batch(Daemonizes(c, child, other), false, 0))),
     Poll(false, 0, None, Some(Batch([Exit(other, 0, true)], false, other)))]
  }

  lemma DaemonLoop(c: Config, mon: Mon, clock: nat, child: int, other: int)
    requires Distinct(c, child, other) && Fresh(c, Begin(mon, Initial(c.self, c.selfSid), clock), child)
    requires clock <= c.stopTimeout && c.kind.Forking? && c.pidfile
    ensures Forest(Initial(c.self, c.selfSid))
    ensures var (v, out) := Loop(c, Begin(mon, Initial(c.self, c.selfSid), clock), Daemon(c, child, other));
      && out == Left(true) && v.orders == [] && v.clock == clock
      && v.mon.pid == other && v.mon.state.Running? && v.mon.wstatus == 0
  {
    hide Digest, Forest, Initial, Daemonizes, Escalate, Orphan, Loop;
    InitialForest(c.self, c.selfSid);
    var w, ps := Begin(mon, Initial(c.self, c.selfSid), clock), Daemon(c, child, other);
    DaemonStarts(c, w, child, other);
    assert Iterate(c, w, ps[0]) == Digest(c, w, ps[0].batch.value);
    var v := Iterate(c, w, ps[0]).0;
    DaemonEnds(c, v, other);
    assert Iterate(c, v, ps[1]) == Digest(c, v, ps[1].batch.value);
    LoopTwo(c, w, ps);
  }

  /** Such a life is a turn after which the monitor still remembers the old main process. */
  lemma DaemonTurn(c: Config, m: Monitor, turn: Turn, other: int)
    requires Sound(c, m) && m.t == Initial(c.self, c.selfSid) && m.mon.pid == 0
    requires Distinct(c, turn.child, other) && c.kind.Forking? && c.pidfile && c.policy.Always? && !c.remain
    requires turn.polls == Daemon(c, turn.child, other) && m.clock + turn.forking <= c.stopTimeout
    ensures var (n, done) := Launch(c, m, turn);
      && done && n.t == m.t && n.clock == m.clock + turn.forking && n.limiter == m.limiter
      && n.mon.state.Restarting? && n.mon.pid == other
  {
    hide Loop, Forest, Initial, Daemon, Marks;
    var n := Started(c, m, turn);
    DaemonLoop(c, n.mon, n.clock, turn.child, other);
  }
}
