/** What every run of the monitor's inner loop keeps: kill escalation, session confinement, order of commands. */
module WatchProofs {
  import opened Basics
  import opened ProcessTable
  import opened ProcessForest
  import opened Watch

  // ----- kill escalation -----

  /** Whether a pass reaches every process of the service or only the main one. */
  predicate Sweeps(mode: KillMode, signal: Signal) {
    mode.ControlGroup? || (mode.Mixed? && signal.Kill?)
  }

  predicate ProperPass(c: Config, o: Order) {
    && o.Pass?
    && o.alive !! {INIT_PID, c.self}
    && o.targets == if Sweeps(c.killMode, o.signal) then o.alive else o.alive * {o.main}
  }

  /**
   The orders of one stop: SIGTERM, then SIGKILL, then giving up, each more than the stop
   timeout after the one before, and none at all when nothing may be killed.
   */
  predicate Proper(c: Config, log: seq<Order>) {
    && |log| <= 3
    && (|log| >= 1 ==> ProperPass(c, log[0]) && log[0].signal == Term && log[0].at > c.stopTimeout)
    && (|log| >= 2 ==> ProperPass(c, log[1]) && log[1].signal == Kill && log[1].at - log[0].at > c.stopTimeout)
    && (|log| >= 3 ==> log[2].GiveUp? && log[2].at - log[1].at > c.stopTimeout)
    && (c.killMode.NoKill? ==> log == [])
  }

  /** How the loop's variables follow from what it did so far. */
  ghost predicate Tally(c: Config, w: Watch) {
    && Proper(c, w.log)
    && w.passes == |w.log|
    && w.t.self == c.self
    && (w.passes == 0 ==> !w.all)
    && (w.passes == 1 ==> w.all == c.killMode.ControlGroup? && w.sent == w.log[0].at)
    && (w.passes == 2 ==> w.all == !c.killMode.MainProcess? && w.sent == w.log[1].at)
    && w.sent <= w.clock
  }

  lemma EscalateTally(c: Config, w: Watch)
    requires Tally(c, w) && w.passes <= 2 && w.clock - w.sent > c.stopTimeout
    ensures var (v, leave) := Escalate(c, w);
      && Proper(c, v.log)
      && (!leave ==> Tally(c, v) && v.passes <= 2 && v.t == w.t)
      && (v.passes == 3 ==> leave)
  {
    hide Drop;
    var targets := Targets(w, w.all);
    assert Tracked(w.t) !! {INIT_PID, c.self};
    assert Targets(w, true) == Tracked(w.t);
    assert Targets(w, false) == Tracked(w.t) * {w.mon.pid};
  }

  lemma AttendTally(c: Config, w: Watch, p: Poll)
    requires Tally(c, w) && w.passes <= 2
    ensures var (v, out) := Attend(c, w, p);
      && Proper(c, v.log)
      && (out.Going? ==> Tally(c, v) && v.passes <= 2 && v.t == w.t)
  {
    hide Proper, ObeyAll, Orders, Escalate;
    var u := w.(clock := w.clock + p.elapsed);
    var v := if p.control.Some? then Heed(u, p.control.value) else u;
    if v.clock - v.sent > c.stopTimeout {
      EscalateTally(c, v);
    }
  }

  lemma {:induction false} SelfStays(c: Config, k: Tracking, evs: seq<Event>)
    requires Forest(k.t)
    ensures TrackAll(c, k, evs).t.self == k.t.self
    decreases |evs|
  {
    if evs != [] {
      hide Drop;
      SelfKept(c, k, evs[0]);
      SelfStays(c, Track(c, k, evs[0]), evs[1..]);
    }
  }

  lemma SelfKept(c: Config, k: Tracking, ev: Event)
    requires Forest(k.t)
    ensures Track(c, k, ev).t.self == k.t.self
  {
    hide Ingest;
    if WellFormed(k.t, ev, Drops(c, k.sid, ev)) {
      IngestSelf(k.t, ev, Drops(c, k.sid, ev));
    }
  }

  lemma {:induction false} SelfCollects(c: Config, h: Harvest)
    requires Forest(h.t)
    ensures CollectAll(c, h).t.self == h.t.self
    decreases |h.t.ready|
  {
    var (t, out) := Collect(h.t);
    if out.Process? {
      CollectForest(h.t);
      SelfCollects(c, Harvest(t, Account(c, h.mon, out.pid, out.proc.wstatus), out.pid));
    }
  }

  lemma DigestTally(c: Config, w: Watch, b: Batch)
    requires Forest(w.t) && Tally(c, w)
    ensures Tally(c, Digest(c, w, b).0) && Digest(c, w, b).0.log == w.log
    ensures Digest(c, w, b).0.passes == w.passes
  {
    hide Proper, TrackAll, CollectAll, Forest;
    var k := TrackAll(c, Tracking(w.t, w.mon.sid), b.events);
    SelfStays(c, Tracking(w.t, w.mon.sid), b.events);
    SelfCollects(c, Harvest(k.t, FindMain(c, w.mon.(sid := k.sid), k.t, b.pidfile), w.last));
  }

  lemma {:induction false} LoopTally(c: Config, w: Watch, ps: seq<Poll>)
    requires Forest(w.t) && Tally(c, w) && w.passes <= 2
    ensures Proper(c, Loop(c, w, ps).0.log)
    decreases |ps|
  {
    hide Proper, Tally, Attend, Digest, Forest;
    if ps == [] {
      TallyIsProper(c, w);
    } else {
      AttendTally(c, w, ps[0]);
      var (v, out) := Attend(c, w, ps[0]);
      if out.Going? {
        if ps[0].batch.Some? {
          DigestTally(c, v, ps[0].batch.value);
          TallyIsProper(c, Digest(c, v, ps[0].batch.value).0);
        }
        var (x, end) := Iterate(c, w, ps[0]);
        if end.Going? {
          LoopTally(c, x, ps[1..]);
        }
      }
    }
  }

  lemma TallyIsProper(c: Config, w: Watch)
    requires Tally(c, w)
    ensures Proper(c, w.log)
  {
  }

  /** Every run of the loop escalates properly, whatever the commands, events and clock. */
  lemma EscalationIsProper(c: Config, mon: Mon, t: Table, clock: nat, ps: seq<Poll>)
    requires Forest(t) && t.self == c.self
    ensures Proper(c, Loop(c, Begin(mon, t, clock), ps).0.log)
  {
    LoopTally(c, Begin(mon, t, clock), ps);
  }

  /**
   An order goes out exactly when the service is being stopped, has a main process that may be
   killed, and the last order is more than the stop timeout ago.
   */
  lemma OverdueOrderGoesOut(c: Config, w: Watch, p: Poll)
    requires Forest(w.t) && Tally(c, w) && w.passes <= 2
    requires !p.failed && (p.control.Some? ==> p.control.value.ok)
    ensures var state := if p.control.Some? then ObeyAll(w.mon.state, p.control.value.requests) else w.mon.state;
      var overdue := IsStopping(state) && w.clock + p.elapsed - w.sent > c.stopTimeout;
      |Iterate(c, w, p).0.log| == |w.log| + (if overdue && w.mon.pid > 0 && !c.killMode.NoKill? then 1 else 0)
  {
    hide Drop, Digest, Forest, ObeyAll;
    AttendTally(c, w, p);
    var (v, out) := Attend(c, w, p);
    if out.Going? && p.batch.Some? {
      DigestTally(c, v, p.batch.value);
    }
  }

  // ----- session confinement -----

  /** Every tracked process is in the monitor's session or, for a forking service, in the service's. */
  ghost predicate Confined(c: Config, t: Table, sid: int) {
    && (!c.kind.Forking? ==> sid == c.selfSid)
    && forall p :: p in t.procs && p != INIT_PID ==> t.procs[p].sid == c.selfSid || t.procs[p].sid == sid
  }

  /** Same processes or fewer, in the sessions they were in. */
  ghost predicate SameSessions(t: Table, u: Table) {
    forall p :: p in u.procs ==> p in t.procs && u.procs[p].sid == t.procs[p].sid
  }

  lemma DropSessions(t: Table, pid: int)
    ensures SameSessions(t, Drop(t, pid))
  {
    hide Subtree;
  }

  lemma ExitSessions(t: Table, pid: int, code: int)
    requires pid in t.procs && INIT_PID in t.procs && pid != INIT_PID
    ensures SameSessions(t, ExitProcess(t, pid, code))
  {
  }

  lemma CollectSessions(t: Table)
    requires Forest(t)
    ensures SameSessions(t, Collect(t).0)
  {
  }

  lemma InsertSessions(t: Table, pid: int, parent: int)
    requires INIT_PID in t.procs && parent in t.procs && parent != INIT_PID
    ensures var u := Insert(t, pid, parent, 0).0;
      forall p :: p in u.procs ==> u.procs[p].sid == t.procs[if p in t.procs then p else parent].sid
  {
  }

  lemma SetsidSessions(t: Table, pid: int)
    requires INIT_PID in t.procs && pid in t.procs
    ensures var u := Insert(t, pid, 0, pid).0;
      u.procs.Keys == t.procs.Keys
      && forall p :: p in u.procs ==> u.procs[p].sid == (if p == pid && pid != 0 then pid else t.procs[p].sid)
  {
  }

  lemma {:induction false} DropForgets(t: Table, pid: int)
    requires pid in t.procs
    ensures pid !in Drop(t, pid).procs
  {
    assert Ancestor(t, pid, 0) == pid;
    assert Descends(t, pid, pid);
  }

  lemma SameStaysConfined(c: Config, t: Table, u: Table, sid: int)
    requires Confined(c, t, sid) && SameSessions(t, u)
    ensures Confined(c, u, sid)
  {
  }

  lemma ForkConfined(c: Config, t: Table, sid: int, parent: int, child: int)
    requires Confined(c, t, sid) && INIT_PID in t.procs && parent in t.procs && parent != INIT_PID
    ensures Confined(c, Insert(t, child, parent, 0).0, sid)
  {
    hide Insert;
    InsertSessions(t, child, parent);
  }

  lemma SetsidConfined(c: Config, k: Tracking, pid: int)
    requires Confined(c, k.t, k.sid) && INIT_PID in k.t.procs && pid in k.t.procs
    ensures var ev := Setsid(pid); var drop := Drops(c, k.sid, ev);
      Confined(c, Ingest(k.t, ev, drop), NextSid(c, k, ev))
  {
    hide Insert, Drop;
    SetsidSessions(k.t, pid);
    var u := Insert(k.t, pid, 0, pid).0;
    DropSessions(u, pid);
    DropForgets(u, pid);
  }

  /** One event keeps the service confined, and the service's session is set at most once. */
  lemma TrackConfined(c: Config, k: Tracking, ev: Event)
    requires Forest(k.t) && Confined(c, k.t, k.sid)
    ensures var r := Track(c, k, ev);
      Confined(c, r.t, r.sid) && (k.sid != c.selfSid || !c.kind.Forking? ==> r.sid == k.sid)
  {
    hide Insert, Drop, ExitProcess, Confined, GoodChildren, GoodParent, Ranked;
    var drop := Drops(c, k.sid, ev);
    if WellFormed(k.t, ev, drop) {
      match ev
      case Fork(parent, child, tid) =>
        if parent in k.t.procs && parent != INIT_PID { ForkConfined(c, k.t, k.sid, parent, child); }
      case Setsid(pid) =>
        if pid in k.t.procs { SetsidConfined(c, k, pid); }
      case Exit(pid, code, last) =>
        if pid in k.t.procs {
          ExitSessions(k.t, pid, code);
          SameStaysConfined(c, k.t, ExitProcess(k.t, pid, code), k.sid);
        }
      case _ =>
    }
  }

  lemma {:induction false} TrackAllConfined(c: Config, k: Tracking, evs: seq<Event>)
    requires Forest(k.t) && Confined(c, k.t, k.sid)
    ensures var r := TrackAll(c, k, evs);
      Confined(c, r.t, r.sid) && (k.sid != c.selfSid || !c.kind.Forking? ==> r.sid == k.sid)
    decreases |evs|
  {
    if evs != [] {
      hide Confined, Forest, Track;
      TrackConfined(c, k, evs[0]);
      TrackAllConfined(c, Track(c, k, evs[0]), evs[1..]);
    }
  }

  lemma {:induction false} CollectAllConfined(c: Config, h: Harvest, sid: int)
    requires Forest(h.t) && Confined(c, h.t, sid)
    ensures Confined(c, CollectAll(c, h).t, sid) && CollectAll(c, h).mon.sid == h.mon.sid
    decreases |h.t.ready|
  {
    var (t, out) := Collect(h.t);
    if out.Process? {
      CollectForest(h.t);
      CollectSessions(h.t);
      SameStaysConfined(c, h.t, t, sid);
      CollectAllConfined(c, Harvest(t, Account(c, h.mon, out.pid, out.proc.wstatus), out.pid), sid);
    }
  }

  lemma DigestConfined(c: Config, w: Watch, b: Batch)
    requires Forest(w.t) && Confined(c, w.t, w.mon.sid)
    ensures var v := Digest(c, w, b).0;
      Confined(c, v.t, v.mon.sid) && (w.mon.sid != c.selfSid ==> v.mon.sid == w.mon.sid)
  {
    hide TrackAll, CollectAll, Forest, Confined;
    var k := TrackAll(c, Tracking(w.t, w.mon.sid), b.events);
    TrackAllConfined(c, Tracking(w.t, w.mon.sid), b.events);
    CollectAllConfined(c, Harvest(k.t, FindMain(c, w.mon.(sid := k.sid), k.t, b.pidfile), w.last), k.sid);
  }

  lemma AttendConfined(c: Config, w: Watch, p: Poll)
    requires Confined(c, w.t, w.mon.sid)
    ensures var v := Attend(c, w, p).0; Confined(c, v.t, v.mon.sid) && v.mon.sid == w.mon.sid
  {
    hide Drop, Confined;
    DropSessions(w.t, w.mon.child);
    DropSessions(w.t, w.mon.pid);
    SameStaysConfined(c, w.t, Drop(w.t, w.mon.child), w.mon.sid);
    SameStaysConfined(c, w.t, Drop(w.t, w.mon.pid), w.mon.sid);
  }

  lemma {:induction false} LoopConfined(c: Config, w: Watch, ps: seq<Poll>)
    requires Forest(w.t) && Confined(c, w.t, w.mon.sid)
    ensures var v := Loop(c, w, ps).0;
      Confined(c, v.t, v.mon.sid) && (w.mon.sid != c.selfSid ==> v.mon.sid == w.mon.sid)
    decreases |ps|
  {
    hide Confined, Attend, Digest, Forest;
    if ps != [] {
      AttendConfined(c, w, ps[0]);
      var (v, out) := Attend(c, w, ps[0]);
      if out.Going? && ps[0].batch.Some? {
        DigestConfined(c, v, ps[0].batch.value);
      }
      var (x, end) := Iterate(c, w, ps[0]);
      if end.Going? {
        LoopConfined(c, x, ps[1..]);
      }
    }
  }

  /** A watch that begins with nothing tracked never tracks a process outside the two sessions. */
  lemma ServiceIsConfined(c: Config, mon: Mon, clock: nat, ps: seq<Poll>)
    requires c.self != INIT_PID && mon.sid == c.selfSid
    ensures Forest(Initial(c.self, c.selfSid))
    ensures var v := Loop(c, Begin(mon, Initial(c.self, c.selfSid), clock), ps).0; Confined(c, v.t, v.mon.sid)
  {
    InitialForest(c.self, c.selfSid);
    LoopConfined(c, Begin(mon, Initial(c.self, c.selfSid), clock), ps);
  }

  // ----- commands -----

  /** The state that accepted orders lead to. */
  function Effect(state: State, orders: seq<Command>): (s: State)
    decreases |orders|
  {
    if orders == [] then state else Effect(Obey(state, Request(orders[0], true)), orders[1..])
  }

  lemma {:induction false} EffectAppend(state: State, a: seq<Command>, b: seq<Command>)
    ensures Effect(state, a + b) == Effect(Effect(state, a), b)
    decreases |a|
  {
    if a == [] {
      assert a + b == b;
    } else {
      assert (a + b)[1..] == a[1..] + b;
      EffectAppend(Obey(state, Request(a[0], true)), a[1..], b);
    }
  }

  /** Requests that are refused or ask for nothing change nothing. */
  lemma {:induction false} OnlyOrdersCount(state: State, rs: seq<Request>)
    ensures ObeyAll(state, rs) == Effect(state, Orders(rs))
    decreases |rs|
  {
    if rs != [] {
      var r := rs[0];
      OnlyOrdersCount(Obey(state, r), rs[1..]);
      if r.privileged && !r.command.Other? {
        assert Orders(rs)[1..] == Orders(rs[1..]);
      }
    }
  }

  /** The kinds of service whose readiness is reported from within the loop. */
  predicate ReportsLate(kind: Kind) {
    kind.Forking? || kind.Oneshot?
  }

  lemma {:induction false} CollectAllState(c: Config, h: Harvest)
    requires Forest(h.t) && !ReportsLate(c.kind)
    ensures CollectAll(c, h).mon.state == h.mon.state
    decreases |h.t.ready|
  {
    var (t, out) := Collect(h.t);
    if out.Process? {
      CollectForest(h.t);
      CollectAllState(c, Harvest(t, Account(c, h.mon, out.pid, out.proc.wstatus), out.pid));
    }
  }

  lemma DigestState(c: Config, w: Watch, b: Batch)
    requires Forest(w.t)
    ensures var v := Digest(c, w, b).0;
      v.orders == w.orders && v.clock == w.clock && (!ReportsLate(c.kind) ==> v.mon.state == w.mon.state)
  {
    hide TrackAll, CollectAll, Forest;
    if !ReportsLate(c.kind) {
      var k := TrackAll(c, Tracking(w.t, w.mon.sid), b.events);
      CollectAllState(c, Harvest(k.t, FindMain(c, w.mon.(sid := k.sid), k.t, b.pidfile), w.last));
    }
  }

  lemma AttendState(c: Config, w: Watch, p: Poll, start: State)
    requires w.mon.state == Effect(start, w.orders)
    ensures var v := Attend(c, w, p).0; v.mon.state == Effect(start, v.orders) && v.clock >= w.clock
  {
    hide Drop, ObeyAll, Orders, Effect, Targets;
    if p.control.Some? {
      OnlyOrdersCount(w.mon.state, p.control.value.requests);
      EffectAppend(start, w.orders, Orders(p.control.value.requests));
    }
  }

  lemma {:induction false} ClockRises(c: Config, w: Watch, ps: seq<Poll>)
    requires Forest(w.t)
    ensures Loop(c, w, ps).0.clock >= w.clock
    decreases |ps|
  {
    hide Attend, Digest, Forest;
    if ps != [] {
      var (v, out) := Attend(c, w, ps[0]);
      if out.Going? && ps[0].batch.Some? {
        DigestState(c, v, ps[0].batch.value);
      }
      var (x, end) := Iterate(c, w, ps[0]);
      if end.Going? {
        ClockRises(c, x, ps[1..]);
      }
    }
  }

  lemma {:induction false} LoopState(c: Config, w: Watch, ps: seq<Poll>, start: State)
    requires Forest(w.t) && !ReportsLate(c.kind) && w.mon.state == Effect(start, w.orders)
    ensures var v := Loop(c, w, ps).0; v.mon.state == Effect(start, v.orders)
    decreases |ps|
  {
    hide Attend, Digest, Forest, Effect, ReportsLate;
    if ps != [] {
      AttendState(c, w, ps[0], start);
      var (v, out) := Attend(c, w, ps[0]);
      if out.Going? && ps[0].batch.Some? {
        DigestState(c, v, ps[0].batch.value);
      }
      var (x, end) := Iterate(c, w, ps[0]);
      if end.Going? {
        LoopState(c, x, ps[1..], start);
      }
    }
  }

  /** For most kinds of service, only accepted orders change the state while the service is watched. */
  lemma StateFollowsOrders(c: Config, mon: Mon, t: Table, clock: nat, ps: seq<Poll>)
    requires Forest(t) && !ReportsLate(c.kind)
    ensures var v := Loop(c, Begin(mon, t, clock), ps).0; v.mon.state == Effect(mon.state, v.orders)
  {
    LoopState(c, Begin(mon, t, clock), ps, mon.state);
  }
}
