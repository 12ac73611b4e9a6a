/** Whether a service that was just started can be sent a signal that nobody ordered. */
module SignalProofs {
  import opened Basics
  import opened ProcessTable
  import opened ProcessForest
  import opened Watch
  import opened WatchProofs
  import opened Limiter
  import opened Monitor
  import opened MonitorProofs
  import opened LimitProofs
  import opened Scenarios
  import Timespan

  /** The watch that follows a fork. */
  ghost function WatchAfterFork(c: Config, m: Monitor, turn: Turn): (w: Option<Watch>)
    requires Forest(m.t)
  {
    var n := Started(c, m, turn);
    if turn.child < 0 then None else Some(Loop(c, Begin(n.mon, n.t, n.clock), turn.polls).0)
  }

  /** The watch of a turn that starts the service. */
  ghost function WatchOf(c: Config, m: Monitor, turn: Turn): (w: Option<Watch>)
    requires c.self != INIT_PID && Sound(c, m)
  {
    match m.mon.state
    case Starting => WatchAfterFork(c, m, turn)
    case Restarting =>
      var next := NextStart(c, m.clock + turn.elapsed);
      var n := Throttle(c, m.(clock := m.clock + turn.elapsed), next);
      var (r, end) := Rest(n, next, turn.waits);
      if n.mon.state.Restarting? && !end.Waiting? && r.mon.state.Restarting? then WatchAfterFork(c, r, turn) else None
    case _ => None
  }

  /** Signals went out, or the monitor gave up, although no order has come in since the start. */
  predicate Unprovoked(w: Watch) {
    w.log != [] && w.orders == []
  }

  // ----- services that are ready at once -----

  /** Nothing was signalled, or there is an order that explains it. */
  predicate Explained(w: Watch) {
    w.orders != [] || (w.log == [] && w.mon.state.Running?)
  }

  lemma AttendExplained(c: Config, w: Watch, p: Poll)
    requires Explained(w)
    ensures Explained(Attend(c, w, p).0)
  {
    hide Drop, ObeyAll, Orders, Targets;
    if p.control.Some? {
      OnlyOrdersCount(w.mon.state, p.control.value.requests);
      NoOrders(w.mon.state);
    }
  }

  lemma DigestExplained(c: Config, w: Watch, b: Batch)
    requires Forest(w.t) && !ReportsLate(c.kind) && Explained(w)
    ensures Explained(Digest(c, w, b).0)
  {
    hide TrackAll, CollectAll, Forest, ReportsLate;
    DigestState(c, w, b);
  }

  lemma {:induction false} LoopExplained(c: Config, w: Watch, ps: seq<Poll>)
    requires Forest(w.t) && !ReportsLate(c.kind) && Explained(w)
    ensures Explained(Loop(c, w, ps).0)
    decreases |ps|
  {
    hide Explained, Attend, Digest, Forest, ReportsLate;
    if ps != [] {
      AttendExplained(c, w, ps[0]);
      var (v, out) := Attend(c, w, ps[0]);
      if out.Going? && ps[0].batch.Some? {
        DigestExplained(c, v, ps[0].batch.value);
      }
      var (x, end) := Iterate(c, w, ps[0]);
      if end.Going? {
        LoopExplained(c, x, ps[1..]);
      }
    }
  }

  /** A service that is ready at once is left alone until somebody orders otherwise. */
  lemma ReadyIsLeftAlone(c: Config, m: Monitor, turn: Turn)
    requires Forest(m.t) && ReadyAtOnce(c.kind)
    ensures var w := WatchAfterFork(c, m, turn); w.Some? ==> !Unprovoked(w.value)
  {
    hide Loop, Forest;
    if turn.child >= 0 {
      var n := Started(c, m, turn);
      LoopExplained(c, Begin(n.mon, n.t, n.clock), turn.polls);
    }
  }

  // ----- the other services -----

  /** A watch that begins while the monitor is still restarting, with a main process it knows of. */
  lemma FirstSignal(c: Config, mon: Mon, child: int, clock: nat)
    requires Ordinary(c, child) && mon.state.Restarting? && mon.pid > 0 && mon.child == child && mon.wstatus == -1
    requires mon.sid == c.selfSid && c.killMode.ControlGroup? && clock <= c.stopTimeout < 100_000_000
    ensures Forest(Initial(c.self, c.selfSid))
    ensures var w := Loop(c, Begin(mon, Initial(c.self, c.selfSid), clock), Patience(c, child)).0;
      w.orders == [] && w.log == [Pass(clock + 100_000_000, Term, mon.pid, {child}, {child})]
  {
    hide Digest, Forest, Initial, Alone, Loop, Iterate;
    InitialForest(c.self, c.selfSid);
    var w, ps := Begin(mon, Initial(c.self, c.selfSid), clock), Patience(c, child);
    ChildArrives(c, w, child);
    QuietPoll(c, w, ps[0]);
    var v := w.(t := Alone(c, child, c.selfSid));
    OverduePoll(c, v, child, ps[1]);
    LoopTwo(c, w, ps);
  }

  /** The child shows up, and then nothing happens for long. */
  function Patience(c: Config, child: int): (ps: seq<Poll>) {
    [Poll(false, 0, None, Some(Batch([Fork(c.self, child, child)], false, 0))), Poll(false, 100_000_000, None, None)]
  }

  lemma ChildArrives(c: Config, w: Watch, child: int)
    requires Ordinary(c, child) && w.t == Initial(c.self, c.selfSid) && w.mon.sid == c.selfSid
    requires w.mon.wstatus == -1 && w.mon.pid > 0
    ensures Forest(w.t) && Forest(Alone(c, child, c.selfSid))
    ensures Digest(c, w, Batch([Fork(c.self, child, child)], false, 0)) == (w.(t := Alone(c, child, c.selfSid)), Going)
  {
    hide Insert, Forest, TrackAll, Track;
    InitialForest(c.self, c.selfSid);
    var k := Tracking(w.t, c.selfSid);
    assert [Fork(c.self, child, child)] == [Fork(c.self, child, child)] + [];
    TrackCons(c, k, Fork(c.self, child, child), []);
    TrackFork(c, k, c.self, child);
    AloneInserted(c, child);
    TrackNothing(c, Track(c, k, Fork(c.self, child, child)));
    AloneCollect(c, child);
    assert CollectAll(c, Harvest(Alone(c, child, c.selfSid), w.mon, w.last))
        == Harvest(Alone(c, child, c.selfSid), w.mon, w.last);
  }

  lemma QuietPoll(c: Config, w: Watch, p: Poll)
    requires Forest(w.t) && w.sent == 0 && w.clock <= c.stopTimeout
    requires !p.failed && p.elapsed == 0 && p.control.None? && p.batch.Some?
    ensures Iterate(c, w, p) == Digest(c, w, p.batch.value)
  {
    hide Digest, Forest, Escalate;
  }

  lemma OverduePoll(c: Config, w: Watch, child: int, p: Poll)
    requires Ordinary(c, child) && w.t == Alone(c, child, c.selfSid) && Forest(w.t) && w.mon.state.Restarting?
    requires w.mon.pid > 0 && w.sent == 0 && w.passes == 0 && w.log == [] && !w.all
    requires c.killMode.ControlGroup? && !p.failed && p.control.None? && p.batch.None?
    requires w.clock + p.elapsed > c.stopTimeout
    ensures var (v, out) := Iterate(c, w, p);
      && out.Going? && v.orders == w.orders
      && v.log == [Pass(w.clock + p.elapsed, Term, w.mon.pid, {child}, {child})]
  {
    hide Forest;
    assert Tracked(w.t) == {child};
    var u := w.(clock := w.clock + p.elapsed);
    var targets := Targets(u, true);
    forall q | q in targets ensures q in {child} {
    }
    assert child in targets;
    assert targets == {child};
  }

  // ----- a run for each kind -----

  function TouchyConfig(kind: Kind): (c: Config) {
    Config(kind, ControlGroup, 90_000_000, Always, false, 1, 0, 0, true, 2, 2)
  }

  /** A life after which the monitor restarts the service, by its policy or because it was told to. */
  function TouchyTurn(kind: Kind): (turn: Turn) {
    var c := TouchyConfig(kind);
    var polls := if kind.Forking? then Daemon(c, 100, 101)
                 else [Visit(c, Some(Session([Request(Restart, true)], true)), 100, 0)];
    Turn(0, [], 0, 100, polls)
  }

  function TouchySecond(kind: Kind): (turn: Turn) {
    Turn(0, [Poll(false, 1, None, None)], 0, 102, Patience(TouchyConfig(kind), 102))
  }

  lemma TouchyRestarts(kind: Kind)
    requires !ReadyAtOnce(kind)
    ensures var c := TouchyConfig(kind);
      var (n, done) := Step(c, Boot(c, 0), TouchyTurn(kind));
      && done && n.mon.state.Restarting? && n.limiter.Off? && n.t == Initial(2, 2) && n.clock == 0
      && (kind.Forking? ==> n.mon.pid > 0)
  {
    hide Launch, Visit, Daemon;
    var c, turn := TouchyConfig(kind), TouchyTurn(kind);
    if kind.Forking? {
      DaemonTurn(c, Boot(c, 0), turn, 101);
    } else {
      var rs := [Request(Restart, true)];
      VisitTurn(c, Boot(c, 0), turn, Some(Session(rs, true)));
      assert ObeyAll(Starting, rs) == Restarting by { assert ObeyAll(Restarting, rs[1..]) == Restarting; }
    }
  }

  lemma TouchyIsSignalled(kind: Kind, m: Monitor)
    requires !ReadyAtOnce(kind) && Sound(TouchyConfig(kind), m)
    requires m.mon.state.Restarting? && m.limiter.Off? && m.t == Initial(2, 2) && m.clock == 0
    requires kind.Forking? ==> m.mon.pid > 0
    ensures var w := WatchOf(TouchyConfig(kind), m, TouchySecond(kind));
      w.Some? && w.value.orders == [] && |w.value.log| == 1 && w.value.log[0].Pass? && w.value.log[0].targets == {102}
  {
    hide Loop, Forest, Rest, Initial, Patience;
    var c, turn := TouchyConfig(kind), TouchySecond(kind);
    NoWrap(1);
    RestExpires(m, 1, 1);
    var r := m.(clock := 1);
    var n := Started(c, r, turn);
    FirstSignal(c, n.mon, 102, 1);
  }

  /** After a restart the service that was just started is sent SIGTERM, without any order since. */
  lemma SignalledUnprovoked(kind: Kind)
    requires !ReadyAtOnce(kind)
    ensures var c := TouchyConfig(kind);
      var m := Run(c, Boot(c, 0), [TouchyTurn(kind)]);
      && Sound(c, m)
      && var w := WatchOf(c, m, TouchySecond(kind)); w.Some? && Unprovoked(w.value)
  {
    hide Step, WatchOf, TouchyTurn, TouchySecond, ReadyAtOnce;
    var c := TouchyConfig(kind);
    TouchyRestarts(kind);
    var n := Step(c, Boot(c, 0), TouchyTurn(kind)).0;
    assert [TouchyTurn(kind)][1..] == [];
    assert Run(c, n, []) == n;
    assert Run(c, Boot(c, 0), [TouchyTurn(kind)]) == n;
    TouchyIsSignalled(kind, n);
  }

  /** In no run is the service signalled after a start unless an order came in since. */
  ghost predicate NeverUnprovoked(kind: Kind) {
    forall c: Config, clock: nat, turns: seq<Turn>, turn: Turn ::
      c.kind == kind && c.self != INIT_PID && Sound(c, Run(c, Boot(c, clock), turns)) ==>
        var w := WatchOf(c, Run(c, Boot(c, clock), turns), turn);
        w.Some? ==> !Unprovoked(w.value)
  }

  /** Exactly the services that are ready at once are never signalled without an order. */
  lemma SignalsAreOrderedExactly(kind: Kind)
    ensures NeverUnprovoked(kind) <==> ReadyAtOnce(kind)
  {
    if ReadyAtOnce(kind) {
      forall c: Config, clock: nat, turns: seq<Turn>, turn: Turn |
        c.kind == kind && c.self != INIT_PID && Sound(c, Run(c, Boot(c, clock), turns))
        ensures var w := WatchOf(c, Run(c, Boot(c, clock), turns), turn); w.Some? ==> !Unprovoked(w.value)
      {
        TurnLeavesAlone(c, Run(c, Boot(c, clock), turns), turn);
      }
    } else {
      hide Run, WatchOf, Unprovoked, Sound, Boot, ReadyAtOnce;
      SignalledUnprovoked(kind);
      assert TouchyConfig(kind).kind == kind;
    }
  }

  lemma TurnLeavesAlone(c: Config, m: Monitor, turn: Turn)
    requires c.self != INIT_PID && Sound(c, m) && ReadyAtOnce(c.kind)
    ensures var w := WatchOf(c, m, turn); w.Some? ==> !Unprovoked(w.value)
  {
    hide WatchAfterFork, Unprovoked, Rest, Throttle, ReadyAtOnce, Forest;
    match m.mon.state
    case Starting => ReadyIsLeftAlone(c, m, turn);
    case Restarting =>
      var next := NextStart(c, m.clock + turn.elapsed);
      var n := Throttle(c, m.(clock := m.clock + turn.elapsed), next);
      ReadyIsLeftAlone(c, Rest(n, next, turn.waits).0, turn);
    case _ =>
  }
}
