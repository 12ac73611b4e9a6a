/** Session confinement over whole runs of the monitor, waits included. */
module SessionProofs {
  import opened Basics
  import opened ProcessTable
  import opened ProcessForest
  import opened Watch
  import opened WatchProofs
  import opened Limiter
  import opened Monitor
  import opened LimitProofs
  import opened Scenarios
  import Timespan

  /** A process that is tracked starts a session of its own. */
  predicate Departs(c: Config, t: Table, ev: Event) {
    ev.Setsid? && ev.pid in t.procs && ev.pid != 0 && ev.pid != c.selfSid
  }

  /** While the monitor waits there is no callback, so a process that departs stays in the table. */
  lemma NoteConfinedExactly(c: Config, t: Table, ev: Event)
    requires Forest(t) && Confined(c, t, c.selfSid) && WellFormed(t, ev, false)
    ensures Confined(c, Note(t, ev), c.selfSid) <==> !Departs(c, t, ev)
  {
    hide Insert, Drop, ExitProcess, GoodChildren, GoodParent, Ranked;
    match ev
    case Fork(parent, child, tid) =>
      if parent in t.procs && parent != INIT_PID { ForkConfined(c, t, c.selfSid, parent, child); }
    case Setsid(pid) =>
      if pid in t.procs { SetsidSessions(t, pid); }
    case Exit(pid, code, last) =>
      if pid in t.procs {
        ExitSessions(t, pid, code);
        SameStaysConfined(c, t, ExitProcess(t, pid, code), c.selfSid);
      }
    case _ =>
  }

  // ----- one batch -----

  /** No event of a batch reports a departure from the table that it meets. */
  ghost predicate NoneDeparts(c: Config, t: Table, evs: seq<Event>)
    requires Forest(t)
    decreases |evs|
  {
    evs == [] ||
      (!(WellFormed(t, evs[0], false) && Departs(c, t, evs[0])) && NoneDeparts(c, Note(t, evs[0]), evs[1..]))
  }

  /** Each table along a batch is confined. */
  ghost predicate StaysConfined(c: Config, t: Table, evs: seq<Event>)
    requires Forest(t)
    decreases |evs|
  {
    Confined(c, t, c.selfSid) && (evs == [] || StaysConfined(c, Note(t, evs[0]), evs[1..]))
  }

  lemma {:induction false} BatchConfinedExactly(c: Config, t: Table, evs: seq<Event>)
    requires Forest(t) && Confined(c, t, c.selfSid)
    ensures StaysConfined(c, t, evs) <==> NoneDeparts(c, t, evs)
    ensures StaysConfined(c, t, evs) ==> Confined(c, NoteAll(t, evs), c.selfSid)
    decreases |evs|
  {
    hide Forest, Confined, Ingest, WellFormed, Departs;
    if evs != [] {
      if WellFormed(t, evs[0], false) {
        NoteConfinedExactly(c, t, evs[0]);
      }
      var u := Note(t, evs[0]);
      if Confined(c, u, c.selfSid) {
        BatchConfinedExactly(c, u, evs[1..]);
      } else {
        NotConfinedNow(c, u, evs[1..]);
      }
    }
  }

  lemma NotConfinedNow(c: Config, t: Table, evs: seq<Event>)
    requires Forest(t) && !Confined(c, t, c.selfSid)
    ensures !StaysConfined(c, t, evs)
  {
  }

  lemma {:induction false} DiscardConfined(c: Config, t: Table)
    requires Forest(t) && Confined(c, t, c.selfSid)
    ensures Confined(c, Discard(t), c.selfSid)
    decreases |t.ready|
  {
    hide Confined;
    var (u, out) := Collect(t);
    if out.Process? {
      CollectForest(t);
      CollectSessions(t);
      SameStaysConfined(c, t, u, c.selfSid);
      DiscardConfined(c, u);
    }
  }

  // ----- one wait -----

  /** The events that a poll brings to a wait, if it gets as far as reading them. */
  function News(p: Poll): (evs: seq<Event>) {
    if p.batch.None? || (p.control.Some? && !p.control.value.ok) then [] else p.batch.value.events
  }

  lemma HeardConfined(c: Config, w: Wait, p: Poll)
    requires Forest(w.t) && StaysConfined(c, w.t, News(p))
    ensures Confined(c, Heard(w, p).0.t, c.selfSid)
  {
    hide Forest, Confined, NoteAll, Discard, ObeyAll, Orders;
    BatchConfinedExactly(c, w.t, News(p));
    if p.batch.Some? {
      var t := NoteAll(w.t, News(p));
      DiscardConfined(c, t);
    }
  }

  /** Nothing departs during a wait. */
  ghost predicate WaitIsQuiet(c: Config, w: Wait, start: State, deadline: nat, ps: seq<Poll>)
    requires Forest(w.t)
    decreases |ps|
  {
    if w.state != start || ps == [] then true
    else
      var u := w.(clock := w.clock + ps[0].elapsed);
      if (deadline != 0 && u.clock >= deadline) || ps[0].failed then true
      else
        && NoneDeparts(c, u.t, News(ps[0]))
        && var (v, ok) := Heard(u, ps[0]); ok ==> WaitIsQuiet(c, v, start, deadline, ps[1..])
  }

  /** Each table along a wait is confined. */
  ghost predicate WaitIsConfined(c: Config, w: Wait, start: State, deadline: nat, ps: seq<Poll>)
    requires Forest(w.t)
    decreases |ps|
  {
    if w.state != start || ps == [] then true
    else
      var u := w.(clock := w.clock + ps[0].elapsed);
      if (deadline != 0 && u.clock >= deadline) || ps[0].failed then true
      else
        && StaysConfined(c, u.t, News(ps[0]))
        && var (v, ok) := Heard(u, ps[0]); ok ==> WaitIsConfined(c, v, start, deadline, ps[1..])
  }

  lemma {:induction false} WaitConfinedExactly(c: Config, w: Wait, start: State, deadline: nat, ps: seq<Poll>)
    requires Forest(w.t) && Confined(c, w.t, c.selfSid)
    ensures WaitIsConfined(c, w, start, deadline, ps) <==> WaitIsQuiet(c, w, start, deadline, ps)
    ensures WaitIsConfined(c, w, start, deadline, ps) ==>
      Confined(c, WaitFor(w, start, deadline, ps).0.t, c.selfSid)
    decreases |ps|
  {
    hide Forest, Confined, Heard, NoneDeparts, StaysConfined, News;
    if w.state == start && ps != [] {
      var u := w.(clock := w.clock + ps[0].elapsed);
      if !((deadline != 0 && u.clock >= deadline) || ps[0].failed) {
        BatchConfinedExactly(c, u.t, News(ps[0]));
        if StaysConfined(c, u.t, News(ps[0])) {
          HeardConfined(c, u, ps[0]);
          WaitConfinedExactly(c, Heard(u, ps[0]).0, start, deadline, ps[1..]);
        }
      }
    }
  }

  ghost predicate RestIsQuiet(c: Config, m: Monitor, deadline: nat, ps: seq<Poll>)
    requires Forest(m.t)
  {
    WaitIsQuiet(c, Wait(m.mon.state, m.t, m.clock, []), m.mon.state, deadline, ps)
  }

  ghost predicate RestIsConfined(c: Config, m: Monitor, deadline: nat, ps: seq<Poll>)
    requires Forest(m.t)
  {
    WaitIsConfined(c, Wait(m.mon.state, m.t, m.clock, []), m.mon.state, deadline, ps)
  }

  lemma RestConfinedExactly(c: Config, m: Monitor, deadline: nat, ps: seq<Poll>)
    requires Forest(m.t) && Confined(c, m.t, c.selfSid)
    ensures RestIsConfined(c, m, deadline, ps) <==> RestIsQuiet(c, m, deadline, ps)
    ensures RestIsConfined(c, m, deadline, ps) ==> Confined(c, Rest(m, deadline, ps).0.t, c.selfSid)
  {
    hide Forest, Confined, WaitFor, WaitIsQuiet, WaitIsConfined, Marks;
    WaitConfinedExactly(c, Wait(m.mon.state, m.t, m.clock, []), m.mon.state, deadline, ps);
  }

  // ----- one turn -----

  /** Either nothing but the monitor's session, or also that of the service being watched. */
  ghost predicate Contained(c: Config, m: Monitor) {
    Confined(c, m.t, c.selfSid) || Confined(c, m.t, m.mon.sid)
  }

  lemma InitialConfined(c: Config)
    ensures Confined(c, Initial(c.self, c.selfSid), c.selfSid)
  {
  }

  lemma SuperviseConfined(c: Config, m: Monitor, ps: seq<Poll>)
    requires c.self != INIT_PID && Forest(m.t) && Confined(c, m.t, m.mon.sid)
    ensures var (n, done) := Supervise(c, m, ps); Contained(c, n) && (done ==> Confined(c, n.t, c.selfSid))
  {
    hide Forest, Confined, Loop, Decide, Marks, Initial;
    LoopConfined(c, Begin(m.mon, m.t, m.clock), ps);
    InitialConfined(c);
  }

  lemma LaunchConfined(c: Config, m: Monitor, turn: Turn)
    requires c.self != INIT_PID && Sound(c, m) && Confined(c, m.t, c.selfSid)
    ensures var (n, done) := Launch(c, m, turn); Contained(c, n) && (done ==> Confined(c, n.t, c.selfSid))
  {
    hide Forest, Confined, Supervise;
    if turn.child >= 0 {
      SuperviseConfined(c, Started(c, m, turn), turn.polls);
    }
  }

  /** The monitor when the wait of a restart begins, and its deadline; nothing if the limit refuses it. */
  function BeforeWait(c: Config, m: Monitor, turn: Turn): (r: Monitor)
    requires Valid(m.limiter)
    ensures Valid(r.limiter) && r.t == m.t
  {
    Throttle(c, m.(clock := m.clock + turn.elapsed), NextStart(c, m.clock + turn.elapsed))
  }

  ghost predicate TurnIsQuiet(c: Config, m: Monitor, turn: Turn)
    requires Sound(c, m)
  {
    match m.mon.state
    case Restarting =>
      var n := BeforeWait(c, m, turn);
      n.mon.state.Failed? || RestIsQuiet(c, n, NextStart(c, m.clock + turn.elapsed), turn.waits)
    case Remaining => RestIsQuiet(c, m, 0, turn.waits)
    case _ => true
  }

  /** Each table along the wait of a turn, if it has one, is confined. */
  ghost predicate TurnIsConfined(c: Config, m: Monitor, turn: Turn)
    requires Sound(c, m)
  {
    match m.mon.state
    case Restarting =>
      var n := BeforeWait(c, m, turn);
      n.mon.state.Failed? || RestIsConfined(c, n, NextStart(c, m.clock + turn.elapsed), turn.waits)
    case Remaining => RestIsConfined(c, m, 0, turn.waits)
    case _ => true
  }

  lemma TurnConfinedExactly(c: Config, m: Monitor, turn: Turn)
    requires Sound(c, m) && Confined(c, m.t, c.selfSid)
    ensures TurnIsConfined(c, m, turn) <==> TurnIsQuiet(c, m, turn)
  {
    hide Forest, Confined, BeforeWait, RestIsQuiet, RestIsConfined;
    if m.mon.state.Restarting? {
      RestConfinedExactly(c, BeforeWait(c, m, turn), NextStart(c, m.clock + turn.elapsed), turn.waits);
    } else if m.mon.state.Remaining? {
      RestConfinedExactly(c, m, 0, turn.waits);
    }
  }

  lemma StepConfined(c: Config, m: Monitor, turn: Turn)
    requires c.self != INIT_PID && Sound(c, m) && Confined(c, m.t, c.selfSid) && TurnIsConfined(c, m, turn)
    requires !m.mon.state.Running?
    ensures var (n, done) := Step(c, m, turn); Contained(c, n) && (done ==> Confined(c, n.t, c.selfSid))
  {
    hide Forest, Confined, Supervise, Launch, Rest, Throttle, RestIsConfined;
    match m.mon.state
    case Restarting =>
      var next, n := NextStart(c, m.clock + turn.elapsed), BeforeWait(c, m, turn);
      if !n.mon.state.Failed? {
        RestConfinedExactly(c, n, next, turn.waits);
        LaunchConfined(c, Rest(n, next, turn.waits).0, turn);
      }
    case Starting => LaunchConfined(c, m, turn);
    case Remaining => RestConfinedExactly(c, m, 0, turn.waits);
    case _ =>
  }

  lemma SuperviseNotRunning(c: Config, m: Monitor, ps: seq<Poll>)
    requires c.self != INIT_PID && Forest(m.t)
    ensures Supervise(c, m, ps).1 ==> !Supervise(c, m, ps).0.mon.state.Running?
  {
    hide Forest, Loop, Marks, Initial, UncleanExit, UncleanSignal;
  }

  lemma RestNotRunning(m: Monitor, deadline: nat, ps: seq<Poll>)
    requires Forest(m.t) && !m.mon.state.Running?
    ensures !Rest(m, deadline, ps).0.mon.state.Running?
  {
    hide Rest, Forest;
    RestStates(m, deadline, ps);
  }

  lemma StepNotRunning(c: Config, m: Monitor, turn: Turn)
    requires c.self != INIT_PID && Sound(c, m) && !m.mon.state.Running?
    ensures Step(c, m, turn).1 ==> !Step(c, m, turn).0.mon.state.Running?
  {
    hide Forest, Supervise, Rest, Throttle;
    match m.mon.state
    case Restarting =>
      var next := NextStart(c, m.clock + turn.elapsed);
      var n := Throttle(c, m.(clock := m.clock + turn.elapsed), next);
      var w := Rest(n, next, turn.waits).0;
      ThrottleNotRunning(c, m.(clock := m.clock + turn.elapsed), next);
      RestNotRunning(n, next, turn.waits);
      SuperviseNotRunning(c, Started(c, w, turn), turn.polls);
    case Starting => SuperviseNotRunning(c, Started(c, m, turn), turn.polls);
    case Remaining => RestNotRunning(m, 0, turn.waits);
    case _ =>
  }

  lemma ThrottleNotRunning(c: Config, m: Monitor, next: nat)
    requires Valid(m.limiter) && next < Timespan.U64 && !m.mon.state.Running?
    ensures !Throttle(c, m, next).mon.state.Running?
  {
  }

  // ----- whole runs -----

  /** No process departs from the table during a wait of the run. */
  ghost predicate RunIsQuiet(c: Config, m: Monitor, turns: seq<Turn>)
    requires c.self != INIT_PID && Sound(c, m)
    decreases |turns|
  {
    turns == [] || Ended(m.mon.state) || (
      && TurnIsQuiet(c, m, turns[0])
      && var (n, done) := Step(c, m, turns[0]); done ==> RunIsQuiet(c, n, turns[1..]))
  }

  /** Each table along the waits of the run is confined. */
  ghost predicate RunIsConfined(c: Config, m: Monitor, turns: seq<Turn>)
    requires c.self != INIT_PID && Sound(c, m)
    decreases |turns|
  {
    turns == [] || Ended(m.mon.state) || (
      && TurnIsConfined(c, m, turns[0])
      && var (n, done) := Step(c, m, turns[0]); done ==> RunIsConfined(c, n, turns[1..]))
  }

  lemma {:induction false} RunConfinedExactly(c: Config, m: Monitor, turns: seq<Turn>)
    requires c.self != INIT_PID && Sound(c, m) && Confined(c, m.t, c.selfSid) && !m.mon.state.Running?
    ensures RunIsConfined(c, m, turns) <==> RunIsQuiet(c, m, turns)
    ensures RunIsConfined(c, m, turns) ==> Contained(c, Run(c, m, turns))
    decreases |turns|
  {
    hide Step, Forest, Confined, TurnIsQuiet, TurnIsConfined;
    if turns != [] && !Ended(m.mon.state) {
      TurnConfinedExactly(c, m, turns[0]);
      if TurnIsConfined(c, m, turns[0]) {
        StepConfined(c, m, turns[0]);
        StepNotRunning(c, m, turns[0]);
        var (n, done) := Step(c, m, turns[0]);
        if done {
          RunConfinedExactly(c, n, turns[1..]);
        }
      }
    }
  }

  /**
   Over every run the service stays confined during the waits exactly if no tracked process departs
   in one, and then it is confined wherever the run stands.
   */
  lemma EveryRunIsConfined(c: Config, clock: nat, turns: seq<Turn>)
    requires c.self != INIT_PID
    ensures var m := Boot(c, clock);
      && (RunIsConfined(c, m, turns) <==> RunIsQuiet(c, m, turns))
      && (RunIsQuiet(c, m, turns) ==> Contained(c, Run(c, m, turns)))
  {
    hide Run, Confined, RunIsQuiet, RunIsConfined, Start;
    InitialConfined(c);
    RunConfinedExactly(c, Boot(c, clock), turns);
  }

  // ----- a process that gets away -----

  /** A child whose start was still to be reported gets away with a session of its own. */
  lemma StrayIsKept(c: Config, m: Monitor, child: int, deadline: nat)
    requires Ordinary(c, child) && child != c.selfSid && m.t == Initial(c.self, c.selfSid)
    requires Forest(m.t) && m.clock < deadline
    ensures var evs := [Fork(c.self, child, child), Setsid(child)];
      var (n, end) := Rest(m, deadline, [Poll(false, 0, None, Some(Batch(evs, false, 0)))]);
      n.t == Alone(c, child, child) && n.mon == m.mon && end == Waiting
  {
    hide Forest, Insert, NoteAll, Discard, Initial, Marks;
    var evs := [Fork(c.self, child, child), Setsid(child)];
    var p := Poll(false, 0, None, Some(Batch(evs, false, 0)));
    StrayNoted(c, child);
    AloneDiscard(c, child);
    var w := Wait(m.mon.state, m.t, m.clock, []);
    var v := Heard(w, p).0;
    assert v.t == Alone(c, child, child);
    assert [p][1..] == [];
    assert WaitFor(v, m.mon.state, deadline, []) == (v, Waiting);
  }

  /** Nothing may be killed, and an order is overdue at once. */
  const HASTY := Config(Simple, NoKill, 0, Never, false, 10, 0, 0, false, 2, 2)

  /** A restart is ordered before the fork is read, which then happens during the wait. */
  function HastyTurns(): (turns: seq<Turn>) {
    var evs := [Fork(2, 100, 100), Setsid(100)];
    [Turn(0, [], 0, 100, [Poll(false, 1, Some(Session([Request(Restart, true)], true)), None)]),
     Turn(0, [Poll(false, 0, None, Some(Batch(evs, false, 0)))], 0, 101, [])]
  }

  lemma HastyFirst()
    ensures var (n, done) := Step(HASTY, Boot(HASTY, 0), HastyTurns()[0]);
      && done && n.mon.state.Restarting? && n.mon.sid == 2 && n.t == Initial(2, 2)
      && n.clock == 1 && n.limiter.Off?
  {
    hide Forest;
    var m, turn := Boot(HASTY, 0), HastyTurns()[0];
    var k := Started(HASTY, m, turn);
    var w, p := Begin(k.mon, k.t, k.clock), turn.polls[0];
    var rs := [Request(Restart, true)];
    assert ObeyAll(Running, rs) == Restarting by { assert ObeyAll(Restarting, rs[1..]) == Restarting; }
    assert 100 !in w.t.procs;
    assert Iterate(HASTY, w, p).1 == Left(true);
  }

  /** So a run from the start arrives at a table that is not confined. */
  lemma StrayIsTracked()
    ensures var m := Run(HASTY, Boot(HASTY, 0), HastyTurns());
      100 in m.t.procs && m.t.procs[100].sid == 100 && !Contained(HASTY, m)
  {
    hide Step, Rest, Forest, Initial;
    var turns := HastyTurns();
    HastyFirst();
    var n := Step(HASTY, Boot(HASTY, 0), turns[0]).0;
    HastySecond(n);
    assert turns[1..][0] == turns[1];
    var m := Step(HASTY, n, turns[1]).0;
    assert Run(HASTY, n, turns[1..]) == m;
  }

  lemma HastySecond(m: Monitor)
    requires Sound(HASTY, m) && m.mon.state.Restarting? && m.mon.sid == 2 && m.t == Initial(2, 2)
    requires m.clock == 1 && m.limiter.Off?
    ensures var (n, done) := Step(HASTY, m, HastyTurns()[1]);
      !done && n.t == Alone(HASTY, 100, 100) && n.mon.sid == 2
  {
    hide Rest, Forest, Initial, Alone;
    NoWrap(11);
    StrayIsKept(HASTY, m, 100, 11);
  }

  lemma StrayNoted(c: Config, child: int)
    requires Ordinary(c, child)
    ensures Forest(Initial(c.self, c.selfSid))
    ensures NoteAll(Initial(c.self, c.selfSid), [Fork(c.self, child, child), Setsid(child)]) == Alone(c, child, child)
  {
    hide Insert, Forest;
    InitialForest(c.self, c.selfSid);
    var t, evs := Initial(c.self, c.selfSid), [Fork(c.self, child, child), Setsid(child)];
    AloneInserted(c, child);
    var u := Note(t, evs[0]);
    assert u == Alone(c, child, c.selfSid);
    AloneSession(c, child);
    var v := Note(u, evs[1]);
    assert v == Alone(c, child, child);
    assert evs[1..] == [evs[1]] && [evs[1]][1..] == [];
    assert NoteAll(v, []) == v;
    assert NoteAll(u, [evs[1]]) == v;
  }

  lemma AloneSession(c: Config, child: int)
    requires Ordinary(c, child)
    ensures Insert(Alone(c, child, c.selfSid), child, 0, child).0 == Alone(c, child, child)
  {
    var t := Insert(Alone(c, child, c.selfSid), child, 0, child).0;
    assert t.procs == Alone(c, child, child).procs;
  }

  lemma AloneDiscard(c: Config, child: int)
    requires Ordinary(c, child) && Forest(Alone(c, child, child))
    ensures Discard(Alone(c, child, child)) == Alone(c, child, child)
  {
    hide Forest;
    var t := Alone(c, child, child);
    assert t.procs.Keys == {INIT_PID, c.self, child};
    assert |t.procs| == |t.procs.Keys|;
  }
}
