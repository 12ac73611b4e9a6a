/** The start limit over whole runs of the monitor: what is recorded, and how often the service is really started. */
module LimitProofs {
  import opened Basics
  import opened ProcessTable
  import opened ProcessForest
  import opened Watch
  import opened WatchProofs
  import opened Limiter
  import opened Monitor
  import opened MonitorProofs
  import Timespan

  // ----- what the parts of a turn do to the times -----

  /** The limiter and the recorded starts are the same, and the clock has not gone back. */
  predicate SameRecords(m: Monitor, n: Monitor) {
    n.limiter == m.limiter && Records(n.trace) == Records(m.trace) && n.clock >= m.clock
  }

  predicate SameTimes(m: Monitor, n: Monitor) {
    SameRecords(m, n) && Forks(n.trace) == Forks(m.trace)
  }

  lemma RestTimes(m: Monitor, deadline: nat, ps: seq<Poll>)
    requires Forest(m.t)
    ensures SameTimes(m, Rest(m, deadline, ps).0)
  {
    hide Records, Forks, Effect, WaitFor, Marks, Forest;
    var w := Wait(m.mon.state, m.t, m.clock, []);
    NoOrders(m.mon.state);
    WaitFollowsOrders(w, m.mon.state, deadline, ps, m.mon.state);
    MarksAddNoTimes(m.trace, WaitFor(w, m.mon.state, deadline, ps).0.orders);
  }

  lemma SuperviseTimes(c: Config, m: Monitor, ps: seq<Poll>)
    requires Forest(m.t)
    requires c.self != INIT_PID
    ensures SameTimes(m, Supervise(c, m, ps).0)
  {
    hide Records, Forks, Loop, Marks, Forest, Decide;
    InitialForest(c.self, c.selfSid);
    ClockRises(c, Begin(m.mon, m.t, m.clock), ps);
    MarksAddNoTimes(m.trace, Loop(c, Begin(m.mon, m.t, m.clock), ps).0.orders);
  }

  lemma LaunchTimes(c: Config, m: Monitor, turn: Turn)
    requires Sound(c, m)
    requires c.self != INIT_PID
    ensures SameRecords(m, Launch(c, m, turn).0)
    ensures Launch(c, m, turn).0.clock >= m.clock + turn.forking
    ensures Forks(Launch(c, m, turn).0.trace) == Forks(m.trace) + [m.clock + turn.forking]
  {
    hide Records, Forks, Supervise;
    var n := Started(c, m, turn);
    Snoc(m.trace, Forked(n.clock));
    if turn.child >= 0 {
      SuperviseTimes(c, n, turn.polls);
    }
  }

  lemma ThrottleTimes(c: Config, m: Monitor, next: nat)
    requires Valid(m.limiter) && next < Timespan.U64
    ensures var n := Throttle(c, m, next);
      && n.clock == m.clock && Forks(n.trace) == Forks(m.trace)
      && (n.mon.state.Failed? || m.limiter.Off? || Records(n.trace) == Records(m.trace) + [next])
  {
    hide Records, Forks;
    Snoc(m.trace, Recorded(next));
  }

  // ----- the recorded starts -----

  /** The ring holds the recorded starts, and no interval holds too many of them. */
  ghost predicate Paced(c: Config, m: Monitor) {
    var rs := Records(m.trace);
    && Holds(m.limiter, rs) && |m.limiter.ring| == Size(c.burst)
    && Ascending(rs) && Spaced(rs, Size(c.burst), c.interval)
    && (forall i :: 0 <= i < |rs| ==> rs[i] <= m.clock + c.delay)
  }

  lemma SamePaced(c: Config, m: Monitor, n: Monitor)
    requires Paced(c, m) && SameRecords(m, n)
    ensures Paced(c, n)
  {
    hide Records, Holds, Ascending, Spaced;
  }

  lemma NoWrap(n: nat)
    requires n < Timespan.U64
    ensures Timespan.Wrap64(n) == n
  {
  }

  lemma ThrottlePaced(c: Config, m: Monitor)
    requires Paced(c, m) && m.clock + c.delay < Timespan.U64
    ensures Paced(c, Throttle(c, m, NextStart(c, m.clock)))
  {
    hide Records, Holds, Ascending, Spaced, Refuses, Record;
    var rs, next := Records(m.trace), m.clock + c.delay;
    NoWrap(next);
    HeldIsValid(m.limiter, rs);
    if !Refuses(m.limiter, c.interval, next) {
      RecordHolds(m.limiter, rs, next);
      AdmittedStaySpaced(m.limiter, rs, c.interval, next);
      Snoc(m.trace, Recorded(next));
      RecordSize(m.limiter, next);
    }
  }

  lemma HeldIsValid(l: Limiter, rs: seq<nat>)
    requires Holds(l, rs)
    ensures l.On? && Valid(l)
  {
  }

  lemma RecordSize(l: Limiter, next: nat)
    requires l.On? && Valid(l) && next < Timespan.U64
    ensures Record(l, next).On? && |Record(l, next).ring| == |l.ring|
  {
  }

  lemma StepClock(c: Config, m: Monitor, turn: Turn)
    requires c.self != INIT_PID && Sound(c, m)
    ensures var n := Step(c, m, turn).0; n.clock >= m.clock + (if m.mon.state.Restarting? then turn.elapsed else 0)
  {
    hide Supervise, Launch, Rest, Throttle, Forks, Records;
    match m.mon.state
    case Restarting =>
      var next := NextStart(c, m.clock + turn.elapsed);
      var start := m.(clock := m.clock + turn.elapsed);
      var n := Throttle(c, start, next);
      ThrottleTimes(c, start, next);
      RestTimes(n, next, turn.waits);
      LaunchTimes(c, Rest(n, next, turn.waits).0, turn);
    case Starting => LaunchTimes(c, m, turn);
    case Running => SuperviseTimes(c, m, turn.polls);
    case Remaining => RestTimes(m, 0, turn.waits);
    case _ =>
  }

  lemma {:induction false} RunClock(c: Config, m: Monitor, turns: seq<Turn>)
    requires c.self != INIT_PID && Sound(c, m)
    ensures Run(c, m, turns).clock >= m.clock
    decreases |turns|
  {
    hide Step;
    if turns != [] && !Ended(m.mon.state) {
      StepClock(c, m, turns[0]);
      var (n, done) := Step(c, m, turns[0]);
      if done {
        RunClock(c, n, turns[1..]);
      }
    }
  }

  lemma StepPaced(c: Config, m: Monitor, turn: Turn)
    requires c.self != INIT_PID && Sound(c, m) && Paced(c, m)
    requires Step(c, m, turn).0.clock + c.delay < Timespan.U64
    ensures Paced(c, Step(c, m, turn).0)
  {
    hide Supervise, Launch, Rest, Throttle, Paced, SameRecords, Forks, Records;
    StepClock(c, m, turn);
    match m.mon.state
    case Restarting =>
      var next := NextStart(c, m.clock + turn.elapsed);
      var start := m.(clock := m.clock + turn.elapsed);
      Later(c, m, turn.elapsed);
      ThrottlePaced(c, start);
      var n := Throttle(c, start, next);
      var w := Rest(n, next, turn.waits).0;
      RestTimes(n, next, turn.waits);
      SameTimesRecords(n, w);
      SamePaced(c, n, w);
      LaunchTimes(c, w, turn);
      SamePaced(c, w, Launch(c, w, turn).0);
    case Starting => LaunchTimes(c, m, turn); SamePaced(c, m, Launch(c, m, turn).0);
    case Running =>
      SuperviseTimes(c, m, turn.polls);
      SameTimesRecords(m, Supervise(c, m, turn.polls).0);
      SamePaced(c, m, Supervise(c, m, turn.polls).0);
    case Remaining =>
      RestTimes(m, 0, turn.waits);
      SameTimesRecords(m, Rest(m, 0, turn.waits).0);
      SamePaced(c, m, Rest(m, 0, turn.waits).0);
    case Stopping =>
      var n := m.(mon := m.mon.(state := Stopped));
      Refl(m, n);
      SamePaced(c, m, n);
    case _ =>
  }

  lemma Later(c: Config, m: Monitor, elapsed: nat)
    requires Paced(c, m)
    ensures Paced(c, m.(clock := m.clock + elapsed))
  {
    hide Records, Holds, Ascending, Spaced;
  }

  lemma SameTimesRecords(m: Monitor, n: Monitor)
    requires SameTimes(m, n)
    ensures SameRecords(m, n)
  {
  }

  lemma Refl(m: Monitor, n: Monitor)
    requires n.limiter == m.limiter && n.trace == m.trace && n.clock == m.clock
    ensures SameRecords(m, n)
  {
  }

  lemma {:induction false} RunPaced(c: Config, m: Monitor, turns: seq<Turn>)
    requires c.self != INIT_PID && Sound(c, m) && Paced(c, m)
    requires Run(c, m, turns).clock + c.delay < Timespan.U64
    ensures Paced(c, Run(c, m, turns))
    decreases |turns|
  {
    hide Step, Paced;
    if turns != [] && !Ended(m.mon.state) {
      var (n, done) := Step(c, m, turns[0]);
      if done {
        RunClock(c, n, turns[1..]);
      }
      StepPaced(c, m, turns[0]);
      if done {
        RunPaced(c, n, turns[1..]);
      }
    }
  }

  lemma BootPaced(c: Config, clock: nat)
    requires c.self != INIT_PID && Enabled(c.interval, c.burst) && clock < Timespan.U64
    ensures Paced(c, Boot(c, clock))
  {
    hide Holds, Timespan.Wrap64, Start, Forks, Records;
    NoWrap(clock);
    StartHolds(c.interval, c.burst, clock);
    StartSize(c.interval, c.burst, clock);
    OneRecord(clock);
  }

  /**
   A restart that is decided some time after any run is refused exactly when the limit says so,
   or when the machine booted too recently to tell.
   */
  lemma RestartRefusedExactly(c: Config, clock: nat, turns: seq<Turn>, elapsed: nat)
    requires c.self != INIT_PID && Enabled(c.interval, c.burst)
    requires Run(c, Boot(c, clock), turns).clock + elapsed + c.delay < Timespan.U64
    ensures var m := Run(c, Boot(c, clock), turns);
      var rs, next := Records(m.trace), NextStart(c, m.clock + elapsed);
      && Holds(m.limiter, rs) && (forall i :: 0 <= i < |rs| ==> rs[i] <= next)
      && (Refuses(m.limiter, c.interval, next) <==>
          TooMany(rs, Size(c.burst), c.interval, next) || (|rs| < Size(c.burst) && next < c.interval))
  {
    hide Run, Holds, Refuses, TooMany, Records, Ascending, Spaced, Boot;
    RunClock(c, Boot(c, clock), turns);
    BootClock(c, clock);
    BootPaced(c, clock);
    RunPaced(c, Boot(c, clock), turns);
    var m := Run(c, Boot(c, clock), turns);
    NoWrap(m.clock + elapsed + c.delay);
    RefusalIsExact(m.limiter, Records(m.trace), c.interval, m.clock + elapsed + c.delay);
  }

  lemma BootClock(c: Config, clock: nat)
    requires c.self != INIT_PID
    ensures Boot(c, clock).clock == clock
  {
  }

  lemma StartSize(interval: nat, burst: nat, clock: nat)
    requires Enabled(interval, burst)
    ensures Start(interval, burst, clock).On? && |Start(interval, burst, clock).ring| == Size(burst)
  {
  }

  lemma OneRecord(clock: nat)
    ensures Records([Recorded(clock)]) == [clock] && Forks([Recorded(clock)]) == []
  {
    Snoc([], Recorded(clock));
    assert [] + [Recorded(clock)] == [Recorded(clock)];
    assert Records([]) == [] && Forks([]) == [];
  }

  /** No interval holds more recorded starts than the limit allows. */
  lemma RecordsAreLimited(c: Config, clock: nat, turns: seq<Turn>, from: nat)
    requires c.self != INIT_PID && Enabled(c.interval, c.burst)
    requires Run(c, Boot(c, clock), turns).clock + c.delay < Timespan.U64
    ensures |Window(Records(Run(c, Boot(c, clock), turns).trace), from, c.interval)| <= Size(c.burst)
  {
    RunClock(c, Boot(c, clock), turns);
    BootPaced(c, clock);
    RunPaced(c, Boot(c, clock), turns);
    WindowIsSmall(Records(Run(c, Boot(c, clock), turns).trace), Size(c.burst), from, c.interval);
  }

  // ----- the actual starts -----

  /** Starts and their records alternate, each start at or after its record. */
  predicate Interleaved(rs: seq<nat>, fs: seq<nat>) {
    && |fs| <= |rs| <= |fs| + 1
    && (forall i :: 0 <= i < |fs| ==> rs[i] <= fs[i])
    && (forall i :: 0 <= i < |fs| && i + 1 < |rs| ==> fs[i] <= rs[i + 1])
  }

  lemma RecordNext(rs: seq<nat>, fs: seq<nat>, next: nat)
    requires Interleaved(rs, fs) && |rs| == |fs|
    requires forall i :: 0 <= i < |fs| ==> fs[i] <= next
    ensures Interleaved(rs + [next], fs)
  {
  }

  lemma ForkNext(rs: seq<nat>, fs: seq<nat>, at: nat)
    requires Interleaved(rs, fs) && |rs| == |fs| + 1 && rs[|fs|] <= at
    ensures Interleaved(rs, fs + [at])
  {
  }

  /** A service whose start is complete once it is forked. */
  predicate ReadyAtOnce(kind: Kind) {
    kind.Simple? || kind.Execing?
  }

  /** Between two turns every record has its start, except that the first start is still to come. */
  predicate InStep(m: Monitor) {
    var rs, fs := Records(m.trace), Forks(m.trace);
    && Interleaved(rs, fs)
    && (forall i :: 0 <= i < |fs| ==> fs[i] <= m.clock)
    && (m.mon.state.Starting? ==> |rs| == |fs| + 1 && rs[|fs|] <= m.clock)
    && (m.mon.state.Restarting? || m.mon.state.Running? || m.mon.state.Remaining? ==> |rs| == |fs|)
  }

  lemma {:induction false} EffectRange(s: State, os: seq<Command>)
    ensures var e := Effect(s, os); e == s || e.Stopping? || e.Restarting?
    decreases |os|
  {
    if os != [] {
      EffectRange(Obey(s, Request(os[0], true)), os[1..]);
    }
  }

  lemma RestStates(m: Monitor, deadline: nat, ps: seq<Poll>)
    requires Forest(m.t)
    ensures var (w, end) := Rest(m, deadline, ps);
      && (w.mon.state == m.mon.state || w.mon.state.Stopping? || w.mon.state.Restarting? || w.mon.state.Defunct?)
      && (end.Over? && w.mon.state == m.mon.state ==> deadline != 0 && w.clock >= deadline)
  {
    hide Effect, WaitFor, Marks, Forest;
    var w := Wait(m.mon.state, m.t, m.clock, []);
    NoOrders(m.mon.state);
    WaitFollowsOrders(w, m.mon.state, deadline, ps, m.mon.state);
    EffectRange(m.mon.state, WaitFor(w, m.mon.state, deadline, ps).0.orders);
  }

  lemma SuperviseStates(c: Config, m: Monitor, ps: seq<Poll>)
    requires Forest(m.t)
    requires c.self != INIT_PID && ReadyAtOnce(c.kind) && m.mon.state.Running?
    ensures !Supervise(c, m, ps).0.mon.state.Starting?
  {
    hide Effect, Loop, Marks, Forest, UncleanExit, UncleanSignal;
    StateFollowsOrders(c, m.mon, m.t, m.clock, ps);
    EffectRange(m.mon.state, Loop(c, Begin(m.mon, m.t, m.clock), ps).0.orders);
  }

  lemma SuperviseInStep(c: Config, m: Monitor, ps: seq<Poll>)
    requires Forest(m.t)
    requires c.self != INIT_PID && ReadyAtOnce(c.kind) && m.mon.state.Running? && InStep(m)
    ensures InStep(Supervise(c, m, ps).0)
  {
    hide Supervise, Records, Forks, ReadyAtOnce, Interleaved;
    SuperviseTimes(c, m, ps);
    SuperviseStates(c, m, ps);
  }

  /** The monitor right before it forks. */
  predicate AboutToFork(m: Monitor) {
    var rs, fs := Records(m.trace), Forks(m.trace);
    Interleaved(rs, fs) && |rs| == |fs| + 1 && rs[|fs|] <= m.clock && (forall i :: 0 <= i < |fs| ==> fs[i] <= m.clock)
  }

  lemma StartedInStep(c: Config, m: Monitor, turn: Turn)
    requires ReadyAtOnce(c.kind) && AboutToFork(m)
    ensures InStep(Started(c, m, turn))
    ensures turn.child >= 0 ==> Started(c, m, turn).mon.state.Running?
  {
    hide Records, Forks, Interleaved;
    var at := m.clock + turn.forking;
    Snoc(m.trace, Forked(at));
    ForkNext(Records(m.trace), Forks(m.trace), at);
  }

  lemma LaunchInStep(c: Config, m: Monitor, turn: Turn)
    requires Sound(c, m)
    requires c.self != INIT_PID && ReadyAtOnce(c.kind) && AboutToFork(m)
    ensures InStep(Launch(c, m, turn).0)
  {
    hide Supervise, InStep, AboutToFork, ReadyAtOnce, Started;
    StartedInStep(c, m, turn);
    if turn.child >= 0 {
      SuperviseInStep(c, Started(c, m, turn), turn.polls);
    }
  }

  /** A restart that passed the limiter. */
  predicate Cleared(m: Monitor, next: nat) {
    var rs, fs := Records(m.trace), Forks(m.trace);
    && Interleaved(rs, fs) && |rs| == |fs| + 1 && rs[|fs|] == next
    && (forall i :: 0 <= i < |fs| ==> fs[i] <= m.clock)
  }

  lemma ThrottleClears(c: Config, m: Monitor, next: nat)
    requires m.limiter.On? && Valid(m.limiter) && next < Timespan.U64
    requires InStep(m) && m.mon.state.Restarting? && m.clock <= next
    ensures var n := Throttle(c, m, next);
      if n.mon.state.Failed? then InStep(n) else Cleared(n, next) && n.mon.state.Restarting?
  {
    hide Records, Forks, Interleaved, Refuses, Record;
    Snoc(m.trace, Recorded(next));
    RecordNext(Records(m.trace), Forks(m.trace), next);
  }

  lemma ResumeInStep(c: Config, m: Monitor, turn: Turn)
    requires c.self != INIT_PID && ReadyAtOnce(c.kind) && m.limiter.On? && Sound(c, m)
    requires InStep(m) && m.mon.state.Restarting?
    requires m.clock + turn.elapsed + c.delay < Timespan.U64
    ensures var (n, done) := Resume(c, m, turn);
      Interleaved(Records(n.trace), Forks(n.trace)) && (done ==> InStep(n))
  {
    hide Records, Forks, Interleaved, Launch, Rest, Throttle, ReadyAtOnce;
    var start := m.(clock := m.clock + turn.elapsed);
    NoWrap(start.clock + c.delay);
    var next := NextStart(c, start.clock);
    ThrottleClears(c, start, next);
    var n := Throttle(c, start, next);
    if !n.mon.state.Failed? {
      RestTimes(n, next, turn.waits);
      RestStates(n, next, turn.waits);
      var (w, end) := Rest(n, next, turn.waits);
      if !end.Waiting? && w.mon.state.Restarting? {
        RestOver(n, next, turn.waits);
        LaunchInStep(c, w, turn);
      }
    }
  }

  lemma RestOver(m: Monitor, deadline: nat, ps: seq<Poll>)
    requires Forest(m.t)
    ensures var (w, end) := Rest(m, deadline, ps); end.Broken? ==> w.mon.state.Defunct?
  {
    hide WaitFor;
  }

  lemma StepInStep(c: Config, m: Monitor, turn: Turn)
    requires c.self != INIT_PID && ReadyAtOnce(c.kind) && m.limiter.On? && Sound(c, m)
    requires InStep(m) && Step(c, m, turn).0.clock + c.delay < Timespan.U64
    ensures var (n, done) := Step(c, m, turn);
      Interleaved(Records(n.trace), Forks(n.trace)) && (done ==> InStep(n)) && n.limiter.On?
  {
    hide Records, Forks, Interleaved, Launch, Rest, Resume, Supervise, ReadyAtOnce;
    StepClock(c, m, turn);
    LimiterStaysOn(c, m, turn);
    match m.mon.state
    case Restarting => ResumeInStep(c, m, turn);
    case Starting => LaunchInStep(c, m, turn);
    case Running => SuperviseInStep(c, m, turn.polls);
    case Remaining =>
      RestTimes(m, 0, turn.waits);
      RestStates(m, 0, turn.waits);
    case _ =>
  }

  lemma LimiterStaysOn(c: Config, m: Monitor, turn: Turn)
    requires c.self != INIT_PID && Sound(c, m)
    ensures Step(c, m, turn).0.limiter.On? == m.limiter.On?
  {
    hide Loop, WaitFor, Refuses, Decide, Forest;
  }

  lemma {:induction false} RunInStep(c: Config, m: Monitor, turns: seq<Turn>)
    requires c.self != INIT_PID && ReadyAtOnce(c.kind) && m.limiter.On? && Sound(c, m)
    requires InStep(m) && Run(c, m, turns).clock + c.delay < Timespan.U64
    ensures var n := Run(c, m, turns); Interleaved(Records(n.trace), Forks(n.trace))
    decreases |turns|
  {
    hide Step, Interleaved, Records, Forks, ReadyAtOnce;
    if turns != [] && !Ended(m.mon.state) {
      var (n, done) := Step(c, m, turns[0]);
      if done {
        RunClock(c, n, turns[1..]);
      }
      StepInStep(c, m, turns[0]);
      if done {
        RunInStep(c, n, turns[1..]);
      }
    }
  }

  /** Between two starts lie all the records of the starts in between. */
  lemma ForksAreSpaced(rs: seq<nat>, fs: seq<nat>, b: nat, interval: nat)
    requires Interleaved(rs, fs) && Spaced(rs, b, interval)
    ensures Spaced(fs, b + 1, interval)
  {
    forall i, j | 0 <= i && i + (b + 1) <= j < |fs| ensures fs[j] - fs[i] >= interval {
      assert fs[i] <= rs[i + 1] && rs[j] <= fs[j];
      assert rs[j] - rs[i + 1] >= interval;
    }
  }

  lemma BootInStep(c: Config, clock: nat)
    requires c.self != INIT_PID && Enabled(c.interval, c.burst) && clock < Timespan.U64
    ensures Boot(c, clock).limiter.On? && InStep(Boot(c, clock))
  {
    hide Timespan.Wrap64, Start, Forks, Records;
    NoWrap(clock);
    StartSize(c.interval, c.burst, clock);
    OneRecord(clock);
  }

  /**
   Every start of a service that is ready at once passes the limiter, and no interval holds more
   than one start beyond the limit, however long the starts and waits take.
   */
  lemma StartsAreLimited(c: Config, clock: nat, turns: seq<Turn>, from: nat)
    requires c.self != INIT_PID && ReadyAtOnce(c.kind) && Enabled(c.interval, c.burst)
    requires Run(c, Boot(c, clock), turns).clock + c.delay < Timespan.U64
    ensures var trace := Run(c, Boot(c, clock), turns).trace;
      && |Forks(trace)| <= |Records(trace)|
      && |Window(Forks(trace), from, c.interval)| <= Size(c.burst) + 1
  {
    hide Run, ReadyAtOnce, Window;
    var m, n := Boot(c, clock), Run(c, Boot(c, clock), turns);
    RunClock(c, m, turns);
    BootPaced(c, clock);
    RunPaced(c, m, turns);
    BootInStep(c, clock);
    RunInStep(c, m, turns);
    ForksAreSpaced(Records(n.trace), Forks(n.trace), Size(c.burst), c.interval);
    WindowIsSmall(Forks(n.trace), Size(c.burst) + 1, from, c.interval);
  }
}
