/**
 When the service is started again: never without a policy or an order to do so, and never against
 a stop order, with the kinds of service for which the monitor does neither.
 */
module RestartProofs {
  import opened Basics
  import opened ProcessTable
  import opened ProcessForest
  import opened Watch
  import opened WatchProofs
  import opened Limiter
  import opened Monitor
  import opened MonitorProofs
  import opened LimitProofs
  import opened Scenarios
  import Timespan

  // ----- started once -----

  predicate Reordered(trace: seq<Mark>) {
    Ordered(Restart) in trace
  }

  /** Either a restart was ordered, or the service is started once and not again. */
  predicate Once(m: Monitor) {
    || Reordered(m.trace)
    || (m.mon.state.Starting? && Forks(m.trace) == [])
    || (!m.mon.state.Starting? && !m.mon.state.Restarting? && |Forks(m.trace)| <= 1)
  }

  lemma {:induction false} OnlyStops(s: State, os: seq<Command>)
    requires Restart !in os
    ensures Effect(s, os) == s || Effect(s, os).Stopping?
    decreases |os|
  {
    if os != [] {
      OnlyStops(Obey(s, Request(os[0], true)), os[1..]);
    }
  }

  lemma RestartIsMarked(t: seq<Mark>, os: seq<Command>)
    requires Restart in os
    ensures Reordered(t + Marks(os))
  {
    var i :| 0 <= i < |os| && os[i] == Restart;
    assert Marks(os)[i] == Ordered(Restart);
    assert (t + Marks(os))[|t| + i] == Ordered(Restart);
  }

  lemma RestOnce(m: Monitor, ps: seq<Poll>)
    requires Forest(m.t) && Once(m) && m.mon.state.Remaining?
    ensures Once(Rest(m, 0, ps).0)
  {
    hide Effect, WaitFor, Marks, Forks, Forest;
    var w := Wait(m.mon.state, m.t, m.clock, []);
    NoOrders(m.mon.state);
    WaitFollowsOrders(w, m.mon.state, 0, ps, m.mon.state);
    RestTimes(m, 0, ps);
    var os := WaitFor(w, m.mon.state, 0, ps).0.orders;
    if Restart in os {
      RestartIsMarked(m.trace, os);
    } else {
      OnlyStops(m.mon.state, os);
    }
  }

  lemma SuperviseOnce(c: Config, m: Monitor, ps: seq<Poll>)
    requires c.self != INIT_PID && ReadyAtOnce(c.kind) && c.policy.Never?
    requires Forest(m.t) && Once(m) && m.mon.state.Running?
    ensures Once(Supervise(c, m, ps).0)
  {
    hide Effect, Loop, Marks, Forest, UncleanExit, UncleanSignal, Forks;
    StateFollowsOrders(c, m.mon, m.t, m.clock, ps);
    SuperviseTimes(c, m, ps);
    var os := Loop(c, Begin(m.mon, m.t, m.clock), ps).0.orders;
    if Restart in os {
      RestartIsMarked(m.trace, os);
    } else {
      OnlyStops(m.mon.state, os);
    }
  }

  /** Once a restart was ordered, that stays so. */
  lemma StepGrows(c: Config, m: Monitor, turn: Turn)
    requires c.self != INIT_PID && Sound(c, m)
    ensures m.trace <= Step(c, m, turn).0.trace
  {
    hide Loop, WaitFor, Refuses, Decide, Forest, Marks;
  }

  lemma LaunchOnce(c: Config, m: Monitor, turn: Turn)
    requires c.self != INIT_PID && ReadyAtOnce(c.kind) && c.policy.Never?
    requires Sound(c, m) && m.mon.state.Starting? && Forks(m.trace) == []
    ensures Once(Launch(c, m, turn).0)
  {
    hide Supervise, Forks, ReadyAtOnce;
    var n := Started(c, m, turn);
    Snoc(m.trace, Forked(n.clock));
    if turn.child >= 0 {
      StartedRuns(c, m, turn);
      SuperviseOnce(c, n, turn.polls);
    }
  }

  lemma StartedRuns(c: Config, m: Monitor, turn: Turn)
    requires ReadyAtOnce(c.kind) && turn.child >= 0
    ensures Started(c, m, turn).mon.state.Running?
  {
  }

  lemma StepOnce(c: Config, m: Monitor, turn: Turn)
    requires c.self != INIT_PID && ReadyAtOnce(c.kind) && c.policy.Never? && Sound(c, m)
    requires Once(m)
    ensures Once(Step(c, m, turn).0)
  {
    hide Supervise, Launch, Rest, Resume, Forks, ReadyAtOnce;
    if Reordered(m.trace) {
      StepGrows(c, m, turn);
    } else {
      match m.mon.state
      case Starting => LaunchOnce(c, m, turn);
      case Running => SuperviseOnce(c, m, turn.polls);
      case Remaining => RestOnce(m, turn.waits);
      case _ =>
    }
  }

  lemma {:induction false} RunOnce(c: Config, m: Monitor, turns: seq<Turn>)
    requires c.self != INIT_PID && ReadyAtOnce(c.kind) && c.policy.Never? && Sound(c, m)
    requires Once(m)
    ensures Once(Run(c, m, turns))
    decreases |turns|
  {
    hide Step, Once, ReadyAtOnce;
    if turns != [] && !Ended(m.mon.state) {
      StepOnce(c, m, turns[0]);
      var (n, done) := Step(c, m, turns[0]);
      if done {
        RunOnce(c, n, turns[1..]);
      }
    }
  }

  /** Without a restart policy and without a restart order a service that is ready at once starts at most once. */
  lemma StartedAtMostOnce(c: Config, clock: nat, turns: seq<Turn>)
    requires c.self != INIT_PID && ReadyAtOnce(c.kind) && c.policy.Never?
    ensures var trace := Run(c, Boot(c, clock), turns).trace; Reordered(trace) || |Forks(trace)| <= 1
  {
    hide Timespan.Wrap64, Forks, ReadyAtOnce;
    assert Forks([]) == [] by { NoForks(0); }
    NoForks(Timespan.Wrap64(clock));
    RunOnce(c, Boot(c, clock), turns);
  }

  lemma NoForks(clock: nat)
    ensures Forks([]) == [] && Forks([Recorded(clock)]) == []
  {
    OneRecord(clock);
  }

  // ----- a stop order that is lost -----

  function StubbornConfig(kind: Kind): (c: Config) {
    Config(kind, ControlGroup, 90_000_000, Always, false, 1, 0, 0, false, 2, 2)
  }

  /** The service ends right after the stop order arrives; then the monitor waits out the restart delay. */
  function StubbornTurns(kind: Kind): (turns: seq<Turn>) {
    var c := StubbornConfig(kind);
    [Turn(0, [], 0, 100, [Visit(c, Some(Session([Request(Stop, true)], true)), 100, 0)]),
     Turn(0, [Poll(false, 1, None, None)], 0, 101, [])]
  }

  lemma StubbornFirst(kind: Kind)
    requires ReportsLate(kind)
    ensures var c := StubbornConfig(kind);
      var (n, done) := Step(c, Boot(c, 0), StubbornTurns(kind)[0]);
      && done && n.mon.state == Restarting && n.limiter.Off? && n.t == Initial(2, 2) && n.clock == 0
      && n.trace == [Forked(0), Ordered(Stop)]
  {
    hide Launch, Visit;
    var c, rs := StubbornConfig(kind), [Request(Stop, true)];
    VisitTurn(c, Boot(c, 0), StubbornTurns(kind)[0], Some(Session(rs, true)));
    assert Orders(rs) == [Stop] by { assert Orders(rs[1..]) == []; }
    assert Marks([Stop]) == [Ordered(Stop)];
  }

  lemma StubbornSecond(kind: Kind, m: Monitor)
    requires Sound(StubbornConfig(kind), m)
    requires m.mon.state == Restarting && m.limiter.Off? && m.clock == 0 && m.trace == [Forked(0), Ordered(Stop)]
    ensures Step(StubbornConfig(kind), m, StubbornTurns(kind)[1]).0.trace == [Forked(0), Ordered(Stop), Forked(1)]
    ensures !Step(StubbornConfig(kind), m, StubbornTurns(kind)[1]).1
  {
    hide Rest;
    var c, turn := StubbornConfig(kind), StubbornTurns(kind)[1];
    ResumeLaunches(c, m, turn, m);
  }

  /** A forking or one-shot service that ends while a stop order stands is started again. */
  lemma StopIsLost(kind: Kind)
    requires ReportsLate(kind)
    ensures var c := StubbornConfig(kind); !StopIsKept(Run(c, Boot(c, 0), StubbornTurns(kind)))
  {
    hide Step;
    var c, turns := StubbornConfig(kind), StubbornTurns(kind);
    StubbornFirst(kind);
    var n := Step(c, Boot(c, 0), turns[0]).0;
    StubbornSecond(kind, n);
    var trace := [Forked(0), Ordered(Stop), Forked(1)];
    assert turns[1..][0] == turns[1];
    assert Run(c, n, turns[1..]).trace == trace;
    assert trace[2].Forked? && StopPending(trace[..2]);
  }

  ghost predicate EveryStopIsKept(kind: Kind) {
    forall c: Config, clock: nat, turns: seq<Turn> ::
      c.kind == kind && c.self != INIT_PID ==> StopIsKept(Run(c, Boot(c, clock), turns))
  }

  /** Stop orders are kept over all runs exactly for the kinds that do not report readiness while watched. */
  lemma StopsAreKeptExactly(kind: Kind)
    ensures EveryStopIsKept(kind) <==> !ReportsLate(kind)
  {
    hide Run, StopIsKept;
    if ReportsLate(kind) {
      StopIsLost(kind);
    } else {
      forall c: Config, clock: nat, turns: seq<Turn> | c.kind == kind && c.self != INIT_PID
        ensures StopIsKept(Run(c, Boot(c, clock), turns))
      {
        StopIsKeptUnlessLate(c, clock, turns);
      }
    }
  }

  // ----- starts that pass by the limiter and the policy -----

  function RestlessConfig(kind: Kind): (c: Config) {
    Config(kind, ControlGroup, 90_000_000, Never, false, 1, 10_000_000, 5, false, 2, 2)
  }

  /** The child comes and goes or, where that would count as a regular end, slips away; then nothing comes in. */
  function RestlessTurns(kind: Kind): (turns: seq<Turn>) {
    var c := RestlessConfig(kind);
    var polls := if ReportsLate(kind) then Slip(c, 100, 101) else [Visit(c, None, 100, 0)];
    [Turn(0, [], 0, 100, polls), Turn(0, [], 0, 102, [])]
  }

  /**
   All kinds of service but the simple ones may be started again with neither a policy nor an
   order to restart them, and without the start limiter taking notice.
   */
  lemma StartedAgainUnnoticed(kind: Kind)
    requires !ReadyAtOnce(kind)
    ensures var c := RestlessConfig(kind);
      var m := Run(c, Boot(c, 0), RestlessTurns(kind));
      m.clock == 0 && Forks(m.trace) == [0, 0] && Records(m.trace) == [0] && !Reordered(m.trace)
  {
    hide Visit, Slip, Step, Records, Forks, ReportsLate;
    var c, turns := RestlessConfig(kind), RestlessTurns(kind);
    RestlessFirst(kind);
    var n := Step(c, Boot(c, 0), turns[0]).0;
    RestlessSecond(kind, n);
    assert turns[1..][0] == turns[1];
    var trace := [Recorded(0), Forked(0), Forked(0)];
    assert Run(c, n, turns[1..]).trace == trace;
    OneRecord(0);
    Snoc([Recorded(0)], Forked(0));
    Snoc([Recorded(0)] + [Forked(0)], Forked(0));
    assert trace == [Recorded(0)] + [Forked(0)] + [Forked(0)];
  }

  lemma RestlessFirst(kind: Kind)
    requires !ReadyAtOnce(kind)
    ensures var c := RestlessConfig(kind);
      var (n, done) := Step(c, Boot(c, 0), RestlessTurns(kind)[0]);
      done && n.mon.state == Starting && n.clock == 0 && n.trace == [Recorded(0), Forked(0)]
  {
    hide Launch, Visit, Slip;
    var c, turn := RestlessConfig(kind), RestlessTurns(kind)[0];
    NoWrap(0);
    if ReportsLate(kind) {
      SlipTurn(c, Boot(c, 0), turn, 101);
    } else {
      VisitTurn(c, Boot(c, 0), turn, None);
      assert Marks([]) == [];
    }
  }

  lemma RestlessSecond(kind: Kind, m: Monitor)
    requires Sound(RestlessConfig(kind), m)
    requires m.mon.state == Starting && m.clock == 0 && m.trace == [Recorded(0), Forked(0)]
    ensures var (n, done) := Step(RestlessConfig(kind), m, RestlessTurns(kind)[1]);
      !done && n.clock == 0 && n.trace == [Recorded(0), Forked(0), Forked(0)]
  {
    hide Visit, Slip, Forest;
  }

  ghost predicate EveryRestartIsOrdered(kind: Kind) {
    forall c: Config, clock: nat, turns: seq<Turn> ::
      c.kind == kind && c.policy.Never? && c.self != INIT_PID ==>
        var trace := Run(c, Boot(c, clock), turns).trace;
        Reordered(trace) || |Forks(trace)| <= 1
  }

  /** Exactly the services that are ready at once need a policy or an order to be started again. */
  lemma RestartsAreOrderedExactly(kind: Kind)
    ensures EveryRestartIsOrdered(kind) <==> ReadyAtOnce(kind)
  {
    hide Run, Forks, Reordered, Boot, RestlessTurns, ReadyAtOnce;
    if ReadyAtOnce(kind) {
      forall c: Config, clock: nat, turns: seq<Turn> | c.kind == kind && c.policy.Never? && c.self != INIT_PID
        ensures var trace := Run(c, Boot(c, clock), turns).trace; Reordered(trace) || |Forks(trace)| <= 1
      {
        StartedAtMostOnce(c, clock, turns);
      }
    } else {
      StartedAgainUnnoticed(kind);
      assert RestlessConfig(kind).kind == kind;
    }
  }

  ghost predicate EveryStartIsRecorded(kind: Kind) {
    forall c: Config, clock: nat, turns: seq<Turn> ::
      c.kind == kind && Enabled(c.interval, c.burst) && c.self != INIT_PID ==>
        var m := Run(c, Boot(c, clock), turns);
        m.clock + c.delay < Timespan.U64 ==> |Forks(m.trace)| <= |Records(m.trace)|
  }

  /** Exactly for the services that are ready at once does every start pass the limiter. */
  lemma StartsAreRecordedExactly(kind: Kind)
    ensures EveryStartIsRecorded(kind) <==> ReadyAtOnce(kind)
  {
    hide Run, Forks, Records, Boot, RestlessTurns, ReadyAtOnce;
    if ReadyAtOnce(kind) {
      forall c: Config, clock: nat, turns: seq<Turn> |
        c.kind == kind && Enabled(c.interval, c.burst) && c.self != INIT_PID
        ensures var m := Run(c, Boot(c, clock), turns);
          m.clock + c.delay < Timespan.U64 ==> |Forks(m.trace)| <= |Records(m.trace)|
      {
        if Run(c, Boot(c, clock), turns).clock + c.delay < Timespan.U64 {
          StartsAreLimited(c, clock, turns, 0);
        }
      }
    } else {
      StartedAgainUnnoticed(kind);
      assert RestlessConfig(kind).kind == kind;
    }
  }

  // ----- how many starts an interval holds -----

  /** A service that is always restarted, at once. */
  function CrowdConfig(kind: Kind, interval: nat, burst: nat): (c: Config) {
    Config(kind, ControlGroup, interval + 1, Always, false, 0, interval, burst, false, 2, 2)
  }

  /** The first start takes until `at`; each later one happens at that very time. */
  function CrowdTurn(c: Config, forking: nat): (turn: Turn) {
    Turn(0, [Poll(false, 0, None, None)], forking, 100, [Visit(c, None, 100, 0)])
  }

  function CrowdTurns(c: Config, n: nat): (turns: seq<Turn>) {
    seq(n, i => CrowdTurn(c, 0))
  }

  /** The monitor has just seen the service come and go. */
  predicate Eager(m: Monitor, at: nat) {
    m.mon.state.Restarting? && m.t == Initial(2, 2) && m.clock == at
  }

  lemma CrowdFirst(c: Config, at: nat)
    requires ReadyAtOnce(c.kind) && c == CrowdConfig(c.kind, c.interval, c.burst) && at <= c.interval + 1
    ensures var m := Boot(c, 0);
      var (n, done) := Step(c, m, CrowdTurn(c, at));
      done && Eager(n, at) && n.limiter == m.limiter && n.trace == m.trace + [Forked(at)]
  {
    hide Launch, Visit, Start;
    VisitTurn(c, Boot(c, 0), CrowdTurn(c, at), None);
    assert Boot(c, 0).trace + [Forked(at)] + Marks([]) == Boot(c, 0).trace + [Forked(at)];
  }

  lemma CrowdStep(c: Config, m: Monitor, at: nat)
    requires ReadyAtOnce(c.kind) && c == CrowdConfig(c.kind, c.interval, c.burst)
    requires Sound(c, m) && Eager(m, at) && 0 < at < Timespan.U64 && at <= c.interval + 1
    requires m.limiter.Off? || !Refuses(m.limiter, c.interval, at)
    ensures var (n, done) := Step(c, m, CrowdTurn(c, 0));
      var k := Throttle(c, m, at);
      done && Eager(n, at) && n.limiter == k.limiter && n.trace == k.trace + [Forked(at)]
  {
    hide Launch, Visit, Refuses, Record;
    var turn, k := CrowdTurn(c, 0), Throttle(c, m, at);
    assert k.clock + c.delay == k.clock && m.(clock := m.clock + turn.elapsed) == m;
    ResumeLaunches(c, m, turn, k);
    VisitTurn(c, k, turn, None);
    assert k.trace + [Forked(at)] + Marks([]) == k.trace + [Forked(at)];
  }

  /** There is no limit, or the ring has room for `n` more starts at `at`. */
  ghost predicate Room(c: Config, m: Monitor, at: nat, n: nat) {
    m.limiter.Off? || (
      var rs := Records(m.trace);
      && Holds(m.limiter, rs) && |m.limiter.ring| == Size(c.burst) && c.interval <= at < Timespan.U64
      && 1 <= |rs| && |rs| + n <= Size(c.burst) + 1 && rs[0] == 0
      && (forall i :: 0 <= i < |rs| ==> rs[i] <= at))
  }

  lemma RoomAdmits(c: Config, m: Monitor, at: nat, n: nat)
    requires Room(c, m, at, n) && n > 0 && Valid(m.limiter) && at < Timespan.U64
    ensures m.limiter.Off? || !Refuses(m.limiter, c.interval, at)
  {
    hide Holds, Refuses, Records;
    if m.limiter.On? {
      RefusalIsExact(m.limiter, Records(m.trace), c.interval, at);
    }
  }

  lemma RoomShrinks(c: Config, m: Monitor, at: nat, n: nat, r: Monitor)
    requires Room(c, m, at, n) && n > 0 && Valid(m.limiter) && at < Timespan.U64
    requires var k := Throttle(c, m, at); r.limiter == k.limiter && r.trace == k.trace + [Forked(at)]
    ensures Room(c, r, at, n - 1) && Forks(r.trace) == Forks(m.trace) + [at]
  {
    RoomAdmits(c, m, at, n);
    hide Holds, Refuses, Record, Records, Forks;
    Snoc(m.trace, Recorded(at));
    Snoc(Throttle(c, m, at).trace, Forked(at));
    if m.limiter.On? {
      RecordHolds(m.limiter, Records(m.trace), at);
      RecordSize(m.limiter, at);
    }
  }

  lemma {:induction false} CrowdRun(c: Config, m: Monitor, at: nat, n: nat)
    requires ReadyAtOnce(c.kind) && c == CrowdConfig(c.kind, c.interval, c.burst)
    requires Sound(c, m) && Eager(m, at) && 0 < at < Timespan.U64 && at <= c.interval + 1 && Room(c, m, at, n)
    ensures var r := Run(c, m, CrowdTurns(c, n));
      r.clock == at && Forks(r.trace) == Forks(m.trace) + seq(n, i => at)
    decreases n
  {
    hide Step, Forks, Room, Refuses, CrowdTurn, Throttle;
    if n > 0 {
      var turns := CrowdTurns(c, n);
      RoomAdmits(c, m, at, n);
      CrowdStep(c, m, at);
      var r := Step(c, m, turns[0]).0;
      RoomShrinks(c, m, at, n, r);
      assert turns[1..] == CrowdTurns(c, n - 1);
      CrowdRun(c, r, at, n - 1);
      assert [at] + seq(n - 1, i => at) == seq(n, i => at);
    }
  }

  /** All `n + 1` starts fall on the same time. */
  function Crowd(c: Config, at: nat, n: nat): (turns: seq<Turn>) {
    [CrowdTurn(c, at)] + CrowdTurns(c, n)
  }

  lemma BootRoom(c: Config, at: nat, n: nat)
    requires c.self != INIT_PID && Enabled(c.interval, c.burst) && c.interval <= at < Timespan.U64 && n <= Size(c.burst)
    ensures Room(c, Boot(c, 0), at, n) && Forks(Boot(c, 0).trace) == []
  {
    hide Start, Holds, Timespan.Wrap64, Records, Forks;
    NoWrap(0);
    StartHolds(c.interval, c.burst, 0);
    StartSize(c.interval, c.burst, 0);
    OneRecord(0);
  }

  lemma BootOff(c: Config, at: nat, n: nat)
    requires c.self != INIT_PID && !Enabled(c.interval, c.burst)
    ensures Room(c, Boot(c, 0), at, n) && Forks(Boot(c, 0).trace) == []
  {
    NoForks(0);
  }

  lemma CrowdForks(kind: Kind, interval: nat, burst: nat, at: nat, n: nat)
    requires ReadyAtOnce(kind) && 0 < at < Timespan.U64 && at <= interval + 1
    requires if Enabled(interval, burst) then interval <= at && n <= Size(burst) else true
    ensures var c := CrowdConfig(kind, interval, burst);
      var r := Run(c, Boot(c, 0), Crowd(c, at, n));
      r.clock == at && Forks(r.trace) == seq(n + 1, i => at)
  {
    hide Step, Forks, Room, ReadyAtOnce, Boot;
    var c := CrowdConfig(kind, interval, burst);
    if Enabled(interval, burst) { BootRoom(c, at, n); } else { BootOff(c, at, n); }
    BootRunning(c, 0);
    CrowdFirst(c, at);
    var turns := Crowd(c, at, n);
    var m := Step(c, Boot(c, 0), turns[0]).0;
    StartsKeepRoom(c, Boot(c, 0), at, n, m);
    CrowdRun(c, m, at, n);
    assert turns[1..] == CrowdTurns(c, n);
    assert Run(c, Boot(c, 0), turns) == Run(c, m, CrowdTurns(c, n));
    assert [at] + seq(n, i => at) == seq(n + 1, i => at);
  }

  lemma BootRunning(c: Config, clock: nat)
    requires c.self != INIT_PID
    ensures Boot(c, clock).mon.state == Starting
  {
  }

  lemma StartsKeepRoom(c: Config, m: Monitor, at: nat, n: nat, r: Monitor)
    requires Room(c, m, at, n) && Forks(m.trace) == [] && r.limiter == m.limiter && r.trace == m.trace + [Forked(at)]
    ensures Room(c, r, at, n) && Forks(r.trace) == [at]
  {
    hide Holds, Records, Forks;
    Snoc(m.trace, Forked(at));
  }

  lemma CrowdedWindow(at: nat, n: nat, interval: nat)
    requires interval > 0
    ensures |Window(seq(n, i => at), at, interval)| == n
  {
    assert Window(seq(n, i => at), at, interval) == Range(0, n);
  }

  /** With a limit of one start, or none, any number of starts falls into one interval. */
  lemma OneStartIsNoLimit(kind: Kind, interval: nat, burst: nat, n: nat)
    requires ReadyAtOnce(kind) && interval > 0 && burst <= 1
    ensures var c := CrowdConfig(kind, interval, burst);
      |Window(Forks(Run(c, Boot(c, 0), Crowd(c, 1, n)).trace), 1, interval)| == n + 1
  {
    hide Run, Forks, Boot, Crowd, Window, ReadyAtOnce;
    CrowdForks(kind, interval, burst, 1, n);
    CrowdedWindow(1, n + 1, interval);
  }

  /** With any other limit, one start more than it allows falls into one interval. */
  lemma OneStartMore(kind: Kind, interval: nat, burst: nat)
    requires ReadyAtOnce(kind) && 0 < interval < Timespan.U64 && burst > 1
    ensures var c := CrowdConfig(kind, interval, burst);
      |Window(Forks(Run(c, Boot(c, 0), Crowd(c, interval, Size(burst))).trace), interval, interval)| == Size(burst) + 1
  {
    hide Run, Forks, Boot, Crowd, Window, ReadyAtOnce;
    CrowdForks(kind, interval, burst, interval, Size(burst));
    CrowdedWindow(interval, Size(burst) + 1, interval);
  }

  /** In every run, no interval holds more than `bound` starts. */
  ghost predicate StartsAreBounded(kind: Kind, interval: nat, burst: nat, bound: nat) {
    forall c: Config, clock: nat, turns: seq<Turn>, from: nat ::
      c.kind == kind && c.interval == interval && c.burst == burst && c.self != INIT_PID ==>
        BoundedIn(c, Run(c, Boot(c, clock), turns), from, bound)
  }

  predicate BoundedIn(c: Config, m: Monitor, from: nat, bound: nat) {
    m.clock + c.delay < Timespan.U64 ==> |Window(Forks(m.trace), from, c.interval)| <= bound
  }

  /** The exact bound: one more than the limit, at most 101, if more than one start is allowed, and none otherwise. */
  lemma StartsAreBoundedExactly(kind: Kind, interval: nat, burst: nat, bound: nat)
    requires ReadyAtOnce(kind) && interval < Timespan.U64
    ensures StartsAreBounded(kind, interval, burst, bound)
       <==> interval == 0 || (burst > 1 && bound >= if burst > 100 then 101 else burst + 1)
  {
    assert Size(burst) == if burst > 100 then 100 else burst;
    hide Run, Forks, Boot, Crowd, Window, ReadyAtOnce;
    if interval == 0 || (burst > 1 && bound >= Size(burst) + 1) {
      forall c: Config, clock: nat, turns: seq<Turn>, from: nat |
        c.kind == kind && c.interval == interval && c.burst == burst && c.self != INIT_PID
        ensures BoundedIn(c, Run(c, Boot(c, clock), turns), from, bound)
      {
        var m := Run(c, Boot(c, clock), turns);
        if interval == 0 {
          EmptyWindow(Forks(m.trace), from);
        } else if m.clock + c.delay < Timespan.U64 {
          StartsAreLimited(c, clock, turns, from);
        }
      }
    } else if burst > 1 {
      OneStartMore(kind, interval, burst);
      CrowdForks(kind, interval, burst, interval, Size(burst));
      var c := CrowdConfig(kind, interval, burst);
      assert !BoundedIn(c, Run(c, Boot(c, 0), Crowd(c, interval, Size(burst))), interval, bound);
    } else {
      OneStartIsNoLimit(kind, interval, burst, bound);
      CrowdForks(kind, interval, burst, 1, bound);
      var c := CrowdConfig(kind, interval, burst);
      assert !BoundedIn(c, Run(c, Boot(c, 0), Crowd(c, 1, bound)), 1, bound);
    }
  }

  lemma EmptyWindow(fs: seq<nat>, from: nat)
    ensures Window(fs, from, 0) == {}
  {
  }

  // ----- a delay too long for the clock -----

  /** The restart delay is kept exactly when the time of the restart fits into 64 bits. */
  lemma DelayIsKept(c: Config, clock: nat)
    requires clock < Timespan.U64 && c.delay < Timespan.U64
    ensures NextStart(c, clock) == clock + c.delay <==> clock + c.delay < Timespan.U64
    ensures clock + c.delay > Timespan.U64 ==> 0 < NextStart(c, clock) < clock
    ensures NextStart(c, clock) == 0 <==> clock + c.delay == 0 || clock + c.delay == Timespan.U64
  {
    if clock + c.delay >= Timespan.U64 {
      NoWrap(clock + c.delay - Timespan.U64);
    } else {
      NoWrap(clock + c.delay);
    }
  }

  /** A delay that reaches further, such as an infinite one, is over as soon as the wait begins. */
  lemma EndlessDelayIsNone(c: Config, t: Table, clock: nat, ps: seq<Poll>)
    requires clock < Timespan.U64 && c.delay < Timespan.U64 && clock + c.delay > Timespan.U64 && ps != [] && Forest(t)
    ensures WaitFor(Wait(Restarting, t, clock, []), Restarting, NextStart(c, clock), ps)
         == (Wait(Restarting, t, clock + ps[0].elapsed, []), Over)
  {
    hide NextStart, Forest;
    DelayIsKept(c, clock);
  }

  /** A delay that reaches exactly 2^64 never ends: only an order ends the wait. */
  lemma ExactDelayIsEndless(c: Config, t: Table, clock: nat, ps: seq<Poll>)
    requires clock < Timespan.U64 && c.delay < Timespan.U64 && clock + c.delay == Timespan.U64 && Forest(t)
    ensures var (w, end) := WaitFor(Wait(Restarting, t, clock, []), Restarting, NextStart(c, clock), ps);
      end.Over? ==> !w.state.Restarting? && w.orders != []
  {
    hide NextStart, Forest, WaitFor, Effect;
    DelayIsKept(c, clock);
    NoOrders(Restarting);
    WaitFollowsOrders(Wait(Restarting, t, clock, []), Restarting, 0, ps, Restarting);
  }
}
