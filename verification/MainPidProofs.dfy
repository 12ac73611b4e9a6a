/** What becomes of the main pid of a forking service once it is known: nothing, not even after a restart. */
module MainPidProofs {
  import opened Basics
  import opened ProcessTable
  import opened ProcessForest
  import opened Watch
  import opened WatchProofs
  import opened WatchFacts
  import opened Limiter
  import opened Monitor
  import opened MonitorProofs
  import opened LimitProofs
  import opened Scenarios
  import opened SignalProofs
  import Timespan

  /** All passes so far were meant for this main process. */
  predicate MeantFor(log: seq<Order>, pid: int) {
    forall i :: 0 <= i < |log| && log[i].Pass? ==> log[i].main == pid
  }

  lemma DigestPid(c: Config, w: Watch, b: Batch)
    requires Forest(w.t) && w.mon.pid > 0
    ensures var v := Digest(c, w, b).0; v.mon.pid == w.mon.pid && v.log == w.log
  {
    hide TrackAll, CollectAll, Forest;
    PassKeepsMain(c, w, b);
  }

  lemma AttendPid(c: Config, w: Watch, p: Poll)
    requires MeantFor(w.log, w.mon.pid)
    ensures var v := Attend(c, w, p).0; v.mon.pid == w.mon.pid && MeantFor(v.log, w.mon.pid)
  {
    hide Drop, ObeyAll, Orders, Targets, Tracked;
  }

  /** Within a watch, a known main pid stays what it is, and every pass is meant for it. */
  lemma {:induction false} LoopPid(c: Config, w: Watch, ps: seq<Poll>)
    requires Forest(w.t) && w.mon.pid > 0 && MeantFor(w.log, w.mon.pid)
    ensures var v := Loop(c, w, ps).0; v.mon.pid == w.mon.pid && MeantFor(v.log, w.mon.pid)
    decreases |ps|
  {
    hide MeantFor, Attend, Digest, Forest;
    if ps != [] {
      AttendPid(c, w, ps[0]);
      var (v, out) := Attend(c, w, ps[0]);
      if out.Going? && ps[0].batch.Some? {
        DigestPid(c, v, ps[0].batch.value);
      }
      var (x, end) := Iterate(c, w, ps[0]);
      if end.Going? {
        LoopPid(c, x, ps[1..]);
      }
    }
  }

  lemma SupervisePid(c: Config, m: Monitor, ps: seq<Poll>)
    requires c.self != INIT_PID && Forest(m.t) && m.mon.pid > 0
    ensures Supervise(c, m, ps).0.mon.pid == m.mon.pid
  {
    hide Forest, Loop, Decide, Marks, Initial;
    LoopPid(c, Begin(m.mon, m.t, m.clock), ps);
  }

  lemma LaunchPid(c: Config, m: Monitor, turn: Turn)
    requires c.self != INIT_PID && Sound(c, m) && c.kind.Forking? && m.mon.pid > 0
    ensures Launch(c, m, turn).0.mon.pid == m.mon.pid
  {
    hide Supervise, Forest;
    if turn.child >= 0 {
      SupervisePid(c, Started(c, m, turn), turn.polls);
    }
  }

  lemma StepPid(c: Config, m: Monitor, turn: Turn)
    requires c.self != INIT_PID && Sound(c, m) && c.kind.Forking? && m.mon.pid > 0
    ensures Step(c, m, turn).0.mon.pid == m.mon.pid
  {
    hide Supervise, Launch, WaitFor, Forest, Refuses, Record, Marks;
    match m.mon.state
    case Restarting =>
      var next := NextStart(c, m.clock + turn.elapsed);
      var n := Throttle(c, m.(clock := m.clock + turn.elapsed), next);
      var w := Rest(n, next, turn.waits).0;
      assert w.mon.pid == m.mon.pid;
      LaunchPid(c, w, turn);
    case Starting => LaunchPid(c, m, turn);
    case Running => SupervisePid(c, m, turn.polls);
    case _ =>
  }

  /** Over every run, restarts included, a known main pid of a forking service is never given up. */
  lemma {:induction false} OldMainStays(c: Config, m: Monitor, turns: seq<Turn>)
    requires c.self != INIT_PID && Sound(c, m) && c.kind.Forking? && m.mon.pid > 0
    ensures Run(c, m, turns).mon.pid == m.mon.pid
    decreases |turns|
  {
    hide Step, Forest;
    if turns != [] && !Ended(m.mon.state) {
      StepPid(c, m, turns[0]);
      var (n, done) := Step(c, m, turns[0]);
      if done {
        OldMainStays(c, n, turns[1..]);
      }
    }
  }

  /** After a restart only the old main process is meant; once it is gone, kill mode `process` signals nobody. */
  lemma NewMainIsSpared(c: Config, m: Monitor, turn: Turn, i: nat)
    requires Forest(m.t) && m.t.self == c.self && c.kind.Forking? && m.mon.pid > 0
    requires turn.child >= 0 && i < |WatchAfterFork(c, m, turn).value.log|
    ensures var o := WatchAfterFork(c, m, turn).value.log[i];
      o.Pass? ==> o.main == m.mon.pid && (c.killMode.MainProcess? && m.mon.pid !in o.alive ==> o.targets == {})
  {
    hide Loop, Forest;
    var n := Started(c, m, turn);
    LoopPid(c, Begin(n.mon, n.t, n.clock), turn.polls);
    EscalationIsProper(c, n.mon, n.t, n.clock, turn.polls);
  }

  const FORGETFUL := Config(Forking, MainProcess, 90_000_000, Always, false, 1, 0, 0, true, 2, 2)

  /** A service that daemonizes as process 101, which then ends. */
  function ForgetfulTurn(): (turn: Turn) {
    Turn(0, [], 0, 100, Daemon(FORGETFUL, 100, 101))
  }

  /** From then on, whatever happens and whatever the pid file says, the main process is 101. */
  lemma MainIsNeverSoughtAgain(turns: seq<Turn>)
    ensures Run(FORGETFUL, Boot(FORGETFUL, 0), [ForgetfulTurn()] + turns).mon.pid == 101
  {
    hide Launch, Daemon, Forest, Initial;
    var m, all := Boot(FORGETFUL, 0), [ForgetfulTurn()] + turns;
    DaemonTurn(FORGETFUL, m, ForgetfulTurn(), 101);
    var n := Step(FORGETFUL, m, all[0]).0;
    assert all[1..] == turns;
    OldMainStays(FORGETFUL, n, turns);
    assert Run(FORGETFUL, m, all) == Run(FORGETFUL, n, turns);
  }
}
