/** What every run of the service monitor keeps: stop orders, the start limit, the restart policy. */
module MonitorProofs {
  import opened Basics
  import opened ProcessTable
  import opened ProcessForest
  import opened Watch
  import opened WatchProofs
  import opened Limiter
  import opened Monitor
  import Timespan

  // ----- reading a trace -----

  /** The last order was to stop. */
  predicate StopPending(trace: seq<Mark>) {
    if trace == [] then false
    else
      var last, rest := trace[|trace| - 1], trace[..|trace| - 1];
      if last.Ordered? && !last.command.Other? then last.command.Stop? else StopPending(rest)
  }

  /** Nothing is started while the last order was to stop. */
  predicate KeepsStops(trace: seq<Mark>) {
    forall i :: 0 <= i < |trace| && trace[i].Forked? ==> !StopPending(trace[..i])
  }

  /** The times of the recorded starts. */
  function Records(trace: seq<Mark>): (r: seq<nat>) {
    if trace == [] then []
    else
      var last, rest := trace[|trace| - 1], trace[..|trace| - 1];
      if last.Recorded? then Records(rest) + [last.at] else Records(rest)
  }

  /** The times at which the service was actually forked. */
  function Forks(trace: seq<Mark>): (r: seq<nat>) {
    if trace == [] then []
    else
      var last, rest := trace[|trace| - 1], trace[..|trace| - 1];
      if last.Forked? then Forks(rest) + [last.at] else Forks(rest)
  }

  lemma Snoc(t: seq<Mark>, x: Mark)
    ensures StopPending(t + [x]) == if x.Ordered? && !x.command.Other? then x.command.Stop? else StopPending(t)
    ensures Records(t + [x]) == if x.Recorded? then Records(t) + [x.at] else Records(t)
    ensures Forks(t + [x]) == if x.Forked? then Forks(t) + [x.at] else Forks(t)
  {
    assert (t + [x])[..|t|] == t;
  }

  lemma KeepsSnoc(t: seq<Mark>, x: Mark)
    requires KeepsStops(t) && (x.Forked? ==> !StopPending(t))
    ensures KeepsStops(t + [x])
  {
    hide StopPending;
    var u := t + [x];
    forall i | 0 <= i < |u| && u[i].Forked? ensures !StopPending(u[..i]) {
      assert u[..i] == t[..i];
      if i == |t| {
        assert t[..i] == t;
      }
    }
  }

  lemma MarksSnoc(t: seq<Mark>, os: seq<Command>, x: Command)
    ensures t + Marks(os + [x]) == (t + Marks(os)) + [Ordered(x)]
  {
  }

  lemma LastOrder(os: seq<Command>)
    requires os != []
    ensures os == os[..|os| - 1] + [os[|os| - 1]]
  {
  }

  lemma {:induction false} MarksAddNoTimes(t: seq<Mark>, os: seq<Command>)
    ensures Records(t + Marks(os)) == Records(t) && Forks(t + Marks(os)) == Forks(t)
    decreases |os|
  {
    hide Records, Forks;
    if os == [] {
      assert t + Marks(os) == t;
    } else {
      var rest, x := os[..|os| - 1], os[|os| - 1];
      LastOrder(os);
      MarksAddNoTimes(t, rest);
      MarksSnoc(t, rest, x);
      Snoc(t + Marks(rest), Ordered(x));
    }
  }

  /** Orders to stop lead to a state of stopping, unless the last order is to restart. */
  lemma {:induction false} PendingMeansStopping(t: seq<Mark>, os: seq<Command>, s: State)
    requires !Ended(s) && (StopPending(t) ==> s.Stopping?) && KeepsStops(t)
    ensures StopPending(t + Marks(os)) ==> Effect(s, os).Stopping?
    ensures !Ended(Effect(s, os)) && KeepsStops(t + Marks(os))
    decreases |os|
  {
    hide StopPending, KeepsStops, Effect;
    if os == [] {
      assert t + Marks(os) == t;
      NoOrders(s);
    } else {
      var rest, x := os[..|os| - 1], os[|os| - 1];
      LastOrder(os);
      PendingMeansStopping(t, rest, s);
      MarksSnoc(t, rest, x);
      Snoc(t + Marks(rest), Ordered(x));
      KeepsSnoc(t + Marks(rest), Ordered(x));
      EffectAppend(s, rest, [x]);
      OneOrder(Effect(s, rest), x);
    }
  }

  lemma NoOrders(s: State)
    ensures Effect(s, []) == s
  {
  }

  lemma OneOrder(s: State, x: Command)
    ensures Effect(s, [x]) == Obey(s, Request(x, true))
  {
  }

  // ----- waiting -----

  lemma HeardFollowsOrders(w: Wait, p: Poll, s: State)
    requires Forest(w.t) && w.state == Effect(s, w.orders)
    ensures var v := Heard(w, p).0; v.state == Effect(s, v.orders)
  {
    hide ObeyAll, Orders, Effect, Forest, NoteAll, Discard;
    if p.control.Some? {
      OnlyOrdersCount(w.state, p.control.value.requests);
      EffectAppend(s, w.orders, Orders(p.control.value.requests));
    }
  }

  lemma {:induction false} WaitFollowsOrders(w: Wait, start: State, deadline: nat, ps: seq<Poll>, s: State)
    requires Forest(w.t) && w.state == Effect(s, w.orders)
    ensures var (v, end) := WaitFor(w, start, deadline, ps);
      && v.state == Effect(s, v.orders) && v.clock >= w.clock
      && (end.Over? && v.state == start && deadline != 0 ==> v.clock >= deadline)
      && (end.Over? && deadline == 0 ==> v.state != start)
    decreases |ps|
  {
    hide Effect, Heard, Forest;
    if w.state == start && ps != [] {
      var u := w.(clock := w.clock + ps[0].elapsed);
      if !(deadline != 0 && u.clock >= deadline) && !ps[0].failed {
        HeardFollowsOrders(u, ps[0], s);
        var (v, ok) := Heard(u, ps[0]);
        if ok {
          WaitFollowsOrders(v, start, deadline, ps[1..], s);
        }
      }
    }
  }

  // ----- a stop order is kept -----

  /** No start against a stop order so far, and none to come. */
  predicate Obedient(m: Monitor) {
    && KeepsStops(m.trace)
    && (StopPending(m.trace) ==> m.mon.state.Stopping? || m.mon.state.Stopped? || m.mon.state.Defunct?)
  }

  lemma RestObedient(m: Monitor, deadline: nat, ps: seq<Poll>)
    requires Forest(m.t) && Obedient(m) && !Ended(m.mon.state)
    ensures Obedient(Rest(m, deadline, ps).0)
    ensures var (w, end) := Rest(m, deadline, ps); !end.Broken? ==> !Ended(w.mon.state)
  {
    hide StopPending, KeepsStops, Effect, WaitFor, Marks, Forest;
    var w := Wait(m.mon.state, m.t, m.clock, []);
    NoOrders(m.mon.state);
    WaitFollowsOrders(w, m.mon.state, deadline, ps, m.mon.state);
    PendingMeansStopping(m.trace, WaitFor(w, m.mon.state, deadline, ps).0.orders, m.mon.state);
  }

  lemma SuperviseObedient(c: Config, m: Monitor, ps: seq<Poll>)
    requires c.self != INIT_PID && Forest(m.t) && !ReportsLate(c.kind)
    requires Obedient(m) && !Ended(m.mon.state)
    ensures Obedient(Supervise(c, m, ps).0)
  {
    hide StopPending, KeepsStops, Effect, Loop, Marks, Forest, ReportsLate, UncleanExit, UncleanSignal;
    StateFollowsOrders(c, m.mon, m.t, m.clock, ps);
    PendingMeansStopping(m.trace, Loop(c, Begin(m.mon, m.t, m.clock), ps).0.orders, m.mon.state);
  }

  lemma LaunchObedient(c: Config, m: Monitor, turn: Turn)
    requires c.self != INIT_PID && Sound(c, m) && !ReportsLate(c.kind)
    requires Obedient(m) && (m.mon.state.Starting? || m.mon.state.Restarting?)
    ensures Obedient(Launch(c, m, turn).0)
  {
    hide StopPending, KeepsStops, Supervise, ReportsLate;
    var n := Started(c, m, turn);
    Snoc(m.trace, Forked(n.clock));
    KeepsSnoc(m.trace, Forked(n.clock));
    if turn.child >= 0 {
      SuperviseObedient(c, n, turn.polls);
    }
  }

  lemma ThrottleObedient(c: Config, m: Monitor, next: nat)
    requires Valid(m.limiter) && next < Timespan.U64
    requires Obedient(m) && m.mon.state.Restarting?
    ensures Obedient(Throttle(c, m, next))
  {
    hide StopPending, KeepsStops;
    Snoc(m.trace, Recorded(next));
    KeepsSnoc(m.trace, Recorded(next));
  }

  lemma StepObedient(c: Config, m: Monitor, turn: Turn)
    requires c.self != INIT_PID && Sound(c, m) && !ReportsLate(c.kind)
    requires Obedient(m)
    ensures Obedient(Step(c, m, turn).0)
  {
    hide StopPending, KeepsStops, Supervise, Launch, Rest, Obedient, ReportsLate;
    match m.mon.state
    case Restarting =>
      var next := NextStart(c, m.clock + turn.elapsed);
      var start := m.(clock := m.clock + turn.elapsed);
      ClockIsFree(m, start);
      ThrottleObedient(c, start, next);
      var n := Throttle(c, start, next);
      if !n.mon.state.Failed? {
        RestObedient(n, next, turn.waits);
        var (w, end) := Rest(n, next, turn.waits);
        if !end.Waiting? && w.mon.state.Restarting? {
          LaunchObedient(c, w, turn);
        }
      }
    case Starting => LaunchObedient(c, m, turn);
    case Running => SuperviseObedient(c, m, turn.polls);
    case Stopping => StopsObedient(m);
    case Remaining => RestObedient(m, 0, turn.waits);
    case _ =>
  }

  lemma ClockIsFree(m: Monitor, n: Monitor)
    requires Obedient(m) && n.mon == m.mon && n.trace == m.trace
    ensures Obedient(n)
  {
  }

  lemma StopsObedient(m: Monitor)
    requires Obedient(m)
    ensures Obedient(m.(mon := m.mon.(state := Stopped)))
  {
  }

  lemma {:induction false} RunObedient(c: Config, m: Monitor, turns: seq<Turn>)
    requires c.self != INIT_PID && Sound(c, m) && !ReportsLate(c.kind)
    requires Obedient(m)
    ensures Obedient(Run(c, m, turns))
    decreases |turns|
  {
    hide Obedient, Step, ReportsLate;
    if turns != [] && !Ended(m.mon.state) {
      StepObedient(c, m, turns[0]);
      var (n, done) := Step(c, m, turns[0]);
      if done {
        RunObedient(c, n, turns[1..]);
      }
    }
  }

  /**
   After a stop order and no later restart order nothing is started, and the monitor ends
   only as stopped, or because it broke down.
   */
  predicate StopIsKept(m: Monitor) {
    && KeepsStops(m.trace)
    && (StopPending(m.trace) && Ended(m.mon.state) ==> !m.mon.state.Failed?)
  }

  lemma StopIsKeptUnlessLate(c: Config, clock: nat, turns: seq<Turn>)
    requires c.self != INIT_PID && !ReportsLate(c.kind)
    ensures StopIsKept(Run(c, Boot(c, clock), turns))
  {
    hide Run, KeepsStops, StopPending, ReportsLate, Boot;
    BootObedient(c, clock);
    RunObedient(c, Boot(c, clock), turns);
  }

  lemma BootObedient(c: Config, clock: nat)
    requires c.self != INIT_PID
    ensures Obedient(Boot(c, clock))
  {
    hide Timespan.Wrap64, Start, StopPending;
    NothingPending(Timespan.Wrap64(clock));
  }

  lemma NothingPending(at: nat)
    ensures !StopPending([]) && !StopPending([Recorded(at)])
  {
    Snoc([], Recorded(at));
    assert [] + [Recorded(at)] == [Recorded(at)];
  }
}
