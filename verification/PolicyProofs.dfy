/**
 What the monitor makes of the way in which a service ended, in terms of its wait status: the exit
 code is status / 256 % 256 and the signal status % 128.
 */
module PolicyProofs {
  import opened Basics
  import opened ProcessTable
  import opened ProcessForest
  import opened Watch
  import opened WatchProofs
  import opened WatchFacts
  import opened Limiter
  import opened Monitor
  import opened MonitorProofs
  import opened LimitProofs
  import opened Scenarios
  import Timespan

  /** Exited with a code other than zero. */
  predicate ExitedBadly(status: int) {
    status % 128 == 0 && status / 256 % 256 != 0
  }

  /** Killed by a signal, other than 1 (HUP), 2 (INT), 13 (PIPE) and 15 (TERM); 127 stands for a stopped process. */
  predicate Killed(status: int) {
    var sig := status % 128;
    0 < sig < 127 && sig != 1 && sig != 2 && sig != 13 && sig != 15
  }

  predicate EndedWell(status: int) {
    !ExitedBadly(status) && !Killed(status)
  }

  /** The watch of a completed supervision that no order has interrupted. */
  ghost predicate EndedByItself(c: Config, m: Monitor, ps: seq<Poll>)
    requires Forest(m.t)
  {
    var (w, out) := Loop(c, Begin(m.mon, m.t, m.clock), ps);
    out == Left(true) && w.mon.state == Running
  }

  /** The status with which the main process of the service was collected during it. */
  ghost function StatusOf(c: Config, m: Monitor, ps: seq<Poll>): (status: int)
    requires Forest(m.t)
  {
    MainStatus(c, Begin(m.mon, m.t, m.clock), ps)
  }

  /** What follows when the service has ended by itself. */
  lemma WhatFollows(c: Config, m: Monitor, ps: seq<Poll>)
    requires c.self != INIT_PID && Forest(m.t) && EndedByItself(c, m, ps)
    ensures var state := Supervise(c, m, ps).0.mon.state;
      var status := StatusOf(c, m, ps);
      var stays := c.remain && EndedWell(status);
      && Supervise(c, m, ps).1
      && (state == Remaining <==> stays)
      && (c.policy == Never ==> state != Restarting)
      && (c.policy == Always ==> (state == Restarting <==> !stays))
      && (c.policy == OnSuccess ==> (state == Restarting <==> !stays && EndedWell(status)))
      && (c.policy == OnFailure ==> (state == Restarting <==> ExitedBadly(status) || Killed(status)))
      && (c.policy == OnAbnormal ==> (state == Restarting <==> Killed(status)))
      && (c.policy == OnAbort ==> (state == Restarting <==> Killed(status)))
      && (state == Failed <==> state != Restarting && !EndedWell(status))
      && (state == Stopped <==> state != Restarting && !stays && EndedWell(status))
  {
    hide Loop, Forest, Initial, Marks, MainStatus;
    StatusIsCollected(c, Begin(m.mon, m.t, m.clock), ps);
  }

  /** A service whose end was ordered, or that broke off, goes where the order says, or is given up. */
  lemma WhatFollowsOrders(c: Config, m: Monitor, ps: seq<Poll>)
    requires c.self != INIT_PID && Forest(m.t) && !EndedByItself(c, m, ps)
    ensures var (w, out) := Loop(c, Begin(m.mon, m.t, m.clock), ps);
      var (n, done) := Supervise(c, m, ps);
      && done == (out != Going)
      && n.mon.state == if out == Left(false) then Defunct else w.mon.state
  {
    hide Loop, Forest, Initial, Marks;
  }

  // ----- started again -----

  /** The ends after which a policy asks for another start. */
  predicate Asks(policy: Policy, status: int) {
    || policy == Always
    || (policy == OnSuccess && EndedWell(status))
    || (policy == OnFailure && !EndedWell(status))
    || ((policy == OnAbnormal || policy == OnAbort) && Killed(status))
  }

  /** A turn in which nobody orders anything and the restart delay, if there is one, passes. */
  predicate Undisturbed(c: Config, turn: Turn) {
    turn.waits == [Poll(false, c.delay, None, None)]
  }

  /** Nothing in the start limit speaks against a start now. */
  predicate Admitted(c: Config, m: Monitor, elapsed: nat)
    requires Valid(m.limiter)
  {
    m.limiter.Off? || !Refuses(m.limiter, c.interval, NextStart(c, m.clock + elapsed))
  }

  /**
   A service that has ended by itself and does not remain is forked again in an undisturbed turn exactly if
   its last status is one for which its policy asks, and the start limit admits it.
   */
  lemma ForkedAgainExactly(c: Config, m: Monitor, ps: seq<Poll>, turn: Turn)
    requires c.self != INIT_PID && Sound(c, m) && EndedByItself(c, m, ps) && Undisturbed(c, turn)
    requires !(c.remain && EndedWell(StatusOf(c, m, ps)))
    requires var n := Supervise(c, m, ps).0; 0 < n.clock + turn.elapsed + c.delay < Timespan.U64
    ensures var (n, done) := Supervise(c, m, ps);
      && done && Sound(c, n)
      && var again := Asks(c.policy, StatusOf(c, m, ps)) && Admitted(c, n, turn.elapsed);
      |Forks(Run(c, n, [turn]).trace)| == |Forks(n.trace)| + (if again then 1 else 0)
  {
    hide EndedByItself, StatusOf, Supervise, Forks, ExitedBadly, Killed, Forest;
    WhatFollows(c, m, ps);
    var n := Supervise(c, m, ps).0;
    if n.mon.state == Restarting {
      ResumeForks(c, n, turn);
      OneTurn(c, n, turn);
    } else {
      assert Ended(n.mon.state);
    }
  }

  lemma OneTurn(c: Config, m: Monitor, turn: Turn)
    requires c.self != INIT_PID && Sound(c, m) && !Ended(m.mon.state)
    ensures Run(c, m, [turn]) == Step(c, m, turn).0
  {
    hide Step;
    var (n, done) := Step(c, m, turn);
    assert [turn][1..] == [];
    if done {
      assert Run(c, n, []) == n;
    }
  }

  /** An undisturbed restart forks exactly if the limit admits it; otherwise the service has failed. */
  lemma ResumeForks(c: Config, m: Monitor, turn: Turn)
    requires c.self != INIT_PID && Sound(c, m) && m.mon.state == Restarting && Undisturbed(c, turn)
    requires 0 < m.clock + turn.elapsed + c.delay < Timespan.U64
    ensures var (n, done) := Step(c, m, turn);
      if Admitted(c, m, turn.elapsed) then |Forks(n.trace)| == |Forks(m.trace)| + 1
      else done && n.mon == m.mon.(state := Failed) && n.trace == m.trace
  {
    hide Forks, Records, Launch, Refuses, Record, Forest;
    var at := m.(clock := m.clock + turn.elapsed);
    NoWrap(at.clock + c.delay);
    var n := Throttle(c, at, at.clock + c.delay);
    if Admitted(c, m, turn.elapsed) {
      ThrottleTimes(c, at, at.clock + c.delay);
      ResumeLaunches(c, m, turn, n);
      LaunchTimes(c, n.(clock := n.clock + c.delay), turn);
    }
  }

  /** After every run a restart that comes too soon fails the service, and nothing is forked or recorded. */
  lemma RefusedRestartFails(c: Config, clock: nat, turns: seq<Turn>, turn: Turn)
    requires c.self != INIT_PID && Enabled(c.interval, c.burst)
    requires var m := Run(c, Boot(c, clock), turns);
      Sound(c, m) && m.mon.state == Restarting && m.clock + turn.elapsed + c.delay < Timespan.U64
    ensures var m := Run(c, Boot(c, clock), turns);
      var (n, done) := Step(c, m, turn);
      var rs, next, b := Records(m.trace), m.clock + turn.elapsed + c.delay, if c.burst > 100 then 100 else c.burst;
      if (|rs| >= b && next - rs[|rs| - b] < c.interval) || (|rs| < b && next < c.interval)
      then done && n.mon == m.mon.(state := Failed) && n.trace == m.trace
      else m.trace + [Recorded(next)] <= n.trace
  {
    hide Run, Records, Refuses, Forest, Holds, Boot, Resume;
    var m := Run(c, Boot(c, clock), turns);
    NoWrap(m.clock + turn.elapsed + c.delay);
    RestartRefusedExactly(c, clock, turns, turn.elapsed);
    LimiterOn(m.limiter, Records(m.trace));
    ResumeRecords(c, m, turn);
  }

  lemma LimiterOn(l: Limiter, rs: seq<nat>)
    requires Holds(l, rs)
    ensures l.On?
  {
  }

  lemma ResumeRecords(c: Config, m: Monitor, turn: Turn)
    requires c.self != INIT_PID && Sound(c, m) && m.limiter.On?
    ensures var next := NextStart(c, m.clock + turn.elapsed);
      var (n, done) := Resume(c, m, turn);
      if Refuses(m.limiter, c.interval, next) then done && n.mon == m.mon.(state := Failed) && n.trace == m.trace
      else m.mon.state == Restarting ==> m.trace + [Recorded(next)] <= n.trace
  {
    hide Loop, WaitFor, Refuses, Record, Decide, Forest, Marks, NextStart;
  }
}
