/** How waits end, and how the monitor ends: it breaks down only if something outside of it fails. */
module EndProofs {
  import opened Basics
  import opened ProcessTable
  import opened ProcessForest
  import opened Watch
  import opened WatchProofs
  import opened WatchFacts
  import opened EventProofs
  import opened Limiter
  import opened Monitor
  import opened MonitorProofs
  import Timespan

  // ----- waits -----

  /** Polls that bring nothing but the passing of time. */
  predicate Quiet(ps: seq<Poll>) {
    forall i :: 0 <= i < |ps| ==> !ps[i].failed && ps[i].control == None && ps[i].batch == None
  }

  function Elapsed(ps: seq<Poll>): (n: nat) {
    if ps == [] then 0 else ps[0].elapsed + Elapsed(ps[1..])
  }

  lemma {:induction false} QuietTimePasses(w: Wait, deadline: nat, qs: seq<Poll>, rest: seq<Poll>)
    requires Forest(w.t) && Quiet(qs) && (deadline == 0 || w.clock + Elapsed(qs) < deadline)
    ensures WaitFor(w, w.state, deadline, qs + rest)
         == WaitFor(w.(clock := w.clock + Elapsed(qs)), w.state, deadline, rest)
    decreases |qs|
  {
    hide Forest, WaitFor;
    if qs == [] {
      assert qs + rest == rest;
    } else {
      var u, all := w.(clock := w.clock + qs[0].elapsed), qs + rest;
      assert all[0] == qs[0] && all[1..] == qs[1..] + rest;
      QuietPoll(w, deadline, all);
      QuietTimePasses(u, deadline, qs[1..], rest);
    }
  }

  lemma QuietPoll(w: Wait, deadline: nat, ps: seq<Poll>)
    requires Forest(w.t) && ps != [] && Quiet([ps[0]]) && (deadline == 0 || w.clock + ps[0].elapsed < deadline)
    ensures WaitFor(w, w.state, deadline, ps)
         == WaitFor(w.(clock := w.clock + ps[0].elapsed), w.state, deadline, ps[1..])
  {
    hide Forest;
    assert [ps[0]][0] == ps[0];
  }

  /** An undisturbed wait is over with the first reading of the clock that has reached its deadline, and not before. */
  lemma WaitEndsOnTime(w: Wait, deadline: nat, qs: seq<Poll>, p: Poll, rest: seq<Poll>)
    requires Forest(w.t) && Quiet(qs) && w.clock + Elapsed(qs) < deadline
    ensures WaitFor(w, w.state, deadline, qs).1 == Waiting
    ensures w.clock + Elapsed(qs) + p.elapsed >= deadline ==>
      WaitFor(w, w.state, deadline, qs + ([p] + rest))
      == (w.(clock := w.clock + Elapsed(qs) + p.elapsed), Over)
  {
    hide Forest;
    assert qs + [] == qs;
    QuietTimePasses(w, deadline, qs, []);
    QuietTimePasses(w, deadline, qs, [p] + rest);
  }

  /** What makes a wait break off. */
  predicate Breaks(p: Poll) {
    p.failed || (p.control.Some? && !p.control.value.ok) || (p.batch.Some? && p.batch.value.fatal)
  }

  /** A failure before the deadline ends the wait, and with it the monitor. */
  lemma WaitBreaksOff(m: Monitor, deadline: nat, qs: seq<Poll>, p: Poll, rest: seq<Poll>)
    requires Forest(m.t) && Quiet(qs) && Breaks(p)
    requires deadline == 0 || m.clock + Elapsed(qs) + p.elapsed < deadline
    ensures var (n, end) := Rest(m, deadline, qs + ([p] + rest)); end == Broken && n.mon.state == Defunct
  {
    hide Forest, NoteAll, Discard, ObeyAll, Orders;
    QuietTimePasses(Wait(m.mon.state, m.t, m.clock, []), deadline, qs, [p] + rest);
    assert ([p] + rest)[0] == p;
  }

  // ----- breaking down -----

  predicate Fine(ps: seq<Poll>) {
    forall i :: 0 <= i < |ps| ==> !Breaks(ps[i])
  }

  lemma {:induction false} OrdersBreakNothing(state: State, rs: seq<Request>)
    requires state != Defunct
    ensures ObeyAll(state, rs) != Defunct
    decreases |rs|
  {
    if rs != [] {
      OrdersBreakNothing(Obey(state, rs[0]), rs[1..]);
    }
  }

  lemma PassIsFine(c: Config, w: Watch, p: Poll)
    requires Forest(w.t) && !Breaks(p) && w.mon.state != Defunct
    ensures var (v, out) := Iterate(c, w, p); out != Left(false) && v.mon.state != Defunct
  {
    hide Drop, TrackAll, CollectAll, Forest, ObeyAll, Orders, Targets, FindMain, Tracked, GivesUp, Finished;
    PassEndsExactly(c, w, p);
    if p.control.Some? {
      OrdersBreakNothing(w.mon.state, p.control.value.requests);
    }
    var (v, out) := Attend(c, w, p);
    assert v.mon.state != Defunct;
    if out.Going? && p.batch.Some? {
      BatchState(c, v, p.batch.value);
    }
  }

  lemma BatchState(c: Config, w: Watch, b: Batch)
    requires Forest(w.t)
    ensures var s := Digest(c, w, b).0.mon.state; s == w.mon.state || s == Running
  {
    hide TrackAll, CollectAll, Forest;
    var k := TrackAll(c, Tracking(w.t, w.mon.sid), b.events);
    HarvestIsExact(c, Harvest(k.t, FindMain(c, w.mon.(sid := k.sid), k.t, b.pidfile), w.last));
  }

  lemma {:induction false} WatchIsFine(c: Config, w: Watch, ps: seq<Poll>)
    requires Forest(w.t) && Fine(ps) && w.mon.state != Defunct
    ensures var (v, out) := Loop(c, w, ps); out != Left(false) && v.mon.state != Defunct
    decreases |ps|
  {
    hide Iterate, Forest, Breaks;
    if ps != [] {
      PassIsFine(c, w, ps[0]);
      var (v, out) := Iterate(c, w, ps[0]);
      if out.Going? {
        WatchIsFine(c, v, ps[1..]);
      }
    }
  }

  lemma SuperviseIsFine(c: Config, m: Monitor, ps: seq<Poll>)
    requires c.self != INIT_PID && Forest(m.t) && Fine(ps) && m.mon.state != Defunct
    ensures Supervise(c, m, ps).0.mon.state != Defunct
  {
    hide Loop, Forest, Marks, Initial, UncleanExit, UncleanSignal, Fine;
    WatchIsFine(c, Begin(m.mon, m.t, m.clock), ps);
  }

  lemma {:induction false} WaitIsFine(w: Wait, start: State, deadline: nat, ps: seq<Poll>)
    requires Forest(w.t) && Fine(ps) && w.state != Defunct
    ensures var (v, end) := WaitFor(w, start, deadline, ps); end != Broken && v.state != Defunct
    decreases |ps|
  {
    hide Forest, NoteAll, Discard, ObeyAll, Orders;
    if w.state == start && ps != [] {
      if ps[0].control.Some? {
        OrdersBreakNothing(w.state, ps[0].control.value.requests);
      }
      var (v, ok) := Heard(w.(clock := w.clock + ps[0].elapsed), ps[0]);
      assert !Breaks(ps[0]);
      WaitIsFine(v, start, deadline, ps[1..]);
    }
  }

  lemma RestIsFine(m: Monitor, deadline: nat, ps: seq<Poll>)
    requires Forest(m.t) && Fine(ps) && m.mon.state != Defunct
    ensures Rest(m, deadline, ps).0.mon.state != Defunct
  {
    hide Forest, WaitFor, Marks, Fine;
    WaitIsFine(Wait(m.mon.state, m.t, m.clock, []), m.mon.state, deadline, ps);
  }

  /** Everything outside of the monitor works during a turn. */
  predicate FineTurn(turn: Turn) {
    Fine(turn.waits) && Fine(turn.polls) && turn.child >= 0
  }

  lemma LaunchIsFine(c: Config, m: Monitor, turn: Turn)
    requires c.self != INIT_PID && Sound(c, m) && FineTurn(turn) && m.mon.state != Defunct
    ensures Launch(c, m, turn).0.mon.state != Defunct
  {
    hide Supervise, Forest, Fine;
    SuperviseIsFine(c, Started(c, m, turn), turn.polls);
  }

  lemma StepIsFine(c: Config, m: Monitor, turn: Turn)
    requires c.self != INIT_PID && Sound(c, m) && FineTurn(turn) && m.mon.state != Defunct
    ensures Step(c, m, turn).0.mon.state != Defunct
  {
    hide Supervise, Launch, Rest, Forest, Refuses, Record, Fine;
    match m.mon.state
    case Restarting =>
      var next := NextStart(c, m.clock + turn.elapsed);
      var n := Throttle(c, m.(clock := m.clock + turn.elapsed), next);
      RestIsFine(n, next, turn.waits);
      LaunchIsFine(c, Rest(n, next, turn.waits).0, turn);
    case Starting => LaunchIsFine(c, m, turn);
    case Running => SuperviseIsFine(c, m, turn.polls);
    case Remaining => RestIsFine(m, 0, turn.waits);
    case _ =>
  }

  lemma {:induction false} RunIsFine(c: Config, m: Monitor, turns: seq<Turn>)
    requires c.self != INIT_PID && Sound(c, m) && m.mon.state != Defunct
    requires forall i :: 0 <= i < |turns| ==> FineTurn(turns[i])
    ensures Run(c, m, turns).mon.state != Defunct
    decreases |turns|
  {
    hide Step, Forest, FineTurn;
    if turns != [] && !Ended(m.mon.state) {
      StepIsFine(c, m, turns[0]);
      var (n, done) := Step(c, m, turns[0]);
      if done {
        RunIsFine(c, n, turns[1..]);
      }
    }
  }

  /**
   While nothing outside of it fails, the monitor never breaks down over any run, and a stop order that
   stands when it ends, for a type that keeps them, has it end as stopped.
   */
  lemma EndsAsOrdered(c: Config, clock: nat, turns: seq<Turn>)
    requires c.self != INIT_PID && forall i :: 0 <= i < |turns| ==> FineTurn(turns[i])
    ensures var m := Run(c, Boot(c, clock), turns);
      && m.mon.state != Defunct
      && (!ReportsLate(c.kind) && StopPending(m.trace) && Ended(m.mon.state) ==> m.mon.state == Stopped)
  {
    hide Run, FineTurn, StopPending, Start, KeepsStops, ReportsLate;
    RunIsFine(c, Boot(c, clock), turns);
    if !ReportsLate(c.kind) {
      StopIsKeptUnlessLate(c, clock, turns);
    }
  }

  // ----- what a wait does to the tracker -----

  lemma {:induction false} DiscardIsExact(t: Table)
    requires Forest(t)
    ensures Reaped(t, Discard(t))
    decreases |t.ready|
  {
    CollectIsExact(t);
    QueueFacts(t);
    var (u, out) := Collect(t);
    DiscardStep(t);
    hide Forest, Collect, Tracked, Discard;
    if out.Process? {
      DiscardIsExact(u);
      ReapedTwice(t, u, Discard(u));
    } else {
      NothingReaped(t);
    }
  }

  lemma DiscardStep(t: Table)
    requires Forest(t)
    ensures Forest(Collect(t).0)
    ensures var (u, out) := Collect(t);
      Discard(t) == if out.Process? then Discard(u) else t
  {
    CollectForest(t);
  }

  /** Nothing that ended during a wait is still there when the service is started again. */
  lemma WaitForgetsTheDead(w: Wait, p: Poll)
    requires Forest(w.t) && p.batch.Some? && !p.batch.value.fatal && (p.control.Some? ==> p.control.value.ok)
    ensures Reaped(NoteAll(w.t, p.batch.value.events), Heard(w, p).0.t) && Heard(w, p).1
  {
    DiscardIsExact(NoteAll(w.t, p.batch.value.events));
    hide Reaped, Discard, NoteAll, Forest, ObeyAll, Orders;
  }

  // ----- a fork that fails -----

  /** A service that cannot be forked ends the monitor, whatever its policy. */
  lemma FailedForkEnds(c: Config, m: Monitor, turn: Turn, turns: seq<Turn>)
    requires c.self != INIT_PID && Sound(c, m) && m.mon.state.Starting? && turn.child < 0
    ensures var end := Run(c, m, [turn] + turns);
      end.mon.state == Defunct && end.t == m.t && end.clock == m.clock + turn.forking
  {
    assert ([turn] + turns)[0] == turn && ([turn] + turns)[1..] == turns;
    hide Supervise, Resume, Rest;
    var n := Step(c, m, turn).0;
    assert Run(c, n, turns) == n;
  }
}
