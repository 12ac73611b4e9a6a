/**
 The monitor's two loops as it runs them, on its own fields, the heap tracker and the
 start-time array.  Each method is proved to do what `Watch` and `Monitor` say.
 */
module MonitorCode {
  import opened Basics
  import opened ProcessTable
  import opened ProcessForest
  import opened ProcWatch
  import opened Watch
  import opened WatchProofs
  import opened Limiter
  import opened LimiterCode
  import opened Monitor
  import Timespan

  // ----- what the kernel can send -----

  ghost predicate PossibleEvents(c: Config, k: Tracking, evs: seq<Event>)
    requires Forest(k.t)
    decreases |evs|
  {
    evs == [] || (WellFormed(k.t, evs[0], Drops(c, k.sid, evs[0])) && PossibleEvents(c, Track(c, k, evs[0]), evs[1..]))
  }

  ghost predicate PossiblePoll(c: Config, w: Watch, p: Poll)
    requires Forest(w.t)
  {
    var (v, out) := Attend(c, w, p);
    out.Going? && p.batch.Some? ==> PossibleEvents(c, Tracking(v.t, v.mon.sid), p.batch.value.events)
  }

  ghost predicate PossiblePolls(c: Config, w: Watch, ps: seq<Poll>)
    requires Forest(w.t)
    decreases |ps|
  {
    ps == [] || (
      && PossiblePoll(c, w, ps[0])
      && var (v, out) := Iterate(c, w, ps[0]); out.Going? ==> PossiblePolls(c, v, ps[1..]))
  }

  ghost predicate PossibleNotes(t: Table, evs: seq<Event>)
    requires Forest(t)
    decreases |evs|
  {
    evs == [] || (WellFormed(t, evs[0], false) && PossibleNotes(Note(t, evs[0]), evs[1..]))
  }

  ghost predicate PossibleNews(w: Wait, p: Poll)
    requires Forest(w.t)
  {
    (p.control.Some? ==> p.control.value.ok) && p.batch.Some? ==> PossibleNotes(w.t, p.batch.value.events)
  }

  ghost predicate PossibleWait(w: Wait, start: State, deadline: nat, ps: seq<Poll>)
    requires Forest(w.t)
    decreases |ps|
  {
    if w.state != start || ps == [] then true
    else
      var u := w.(clock := w.clock + ps[0].elapsed);
      if (deadline != 0 && u.clock >= deadline) || ps[0].failed then true
      else
        && PossibleNews(u, ps[0])
        && var (v, ok) := Heard(u, ps[0]); ok ==> PossibleWait(v, start, deadline, ps[1..])
  }

  ghost predicate PossibleRest(m: Monitor, deadline: nat, ps: seq<Poll>)
    requires Forest(m.t)
  {
    PossibleWait(Wait(m.mon.state, m.t, m.clock, []), m.mon.state, deadline, ps)
  }

  ghost predicate PossibleStart(c: Config, m: Monitor, turn: Turn)
    requires Forest(m.t)
  {
    var n := Started(c, m, turn);
    turn.child >= 0 ==> PossiblePolls(c, Begin(n.mon, n.t, n.clock), turn.polls)
  }

  ghost predicate PossibleTurn(c: Config, m: Monitor, turn: Turn)
    requires Sound(c, m)
  {
    match m.mon.state
    case Starting => PossibleStart(c, m, turn)
    case Running => PossiblePolls(c, Begin(m.mon, m.t, m.clock), turn.polls)
    case Remaining => PossibleRest(m, 0, turn.waits)
    case Restarting =>
      var next := NextStart(c, m.clock + turn.elapsed);
      var n := Throttle(c, m.(clock := m.clock + turn.elapsed), next);
      n.mon.state.Restarting? ==>
        && PossibleRest(n, next, turn.waits)
        && var (w, end) := Rest(n, next, turn.waits);
           !end.Waiting? && w.mon.state.Restarting? ==> PossibleStart(c, w, turn)
    case _ => true
  }

  ghost predicate PossibleTurns(c: Config, m: Monitor, turns: seq<Turn>)
    requires c.self != INIT_PID && Sound(c, m)
    decreases |turns|
  {
    turns == [] || Ended(m.mon.state) || (
      && PossibleTurn(c, m, turns[0])
      && var (n, done) := Step(c, m, turns[0]); done ==> PossibleTurns(c, n, turns[1..]))
  }

  lemma CollectFacts(t: Table)
    requires Forest(t)
    ensures var (u, out) := Collect(t);
      if out.Process? then |u.ready| < |t.ready| else u == t && (out.NoChildren? <==> |t.procs| == 2)
  {
  }

  lemma SameSet(a: set<int>, b: set<int>)
    requires forall p :: p in a <==> p in b
    ensures a == b
  {
    forall p | p in a ensures p in b {
    }
    forall p | p in b ensures p in a {
    }
  }

  lemma CollectUnfolds(c: Config, h: Harvest)
    requires Forest(h.t)
    ensures Forest(Collect(h.t).0)
    ensures var (t, out) := Collect(h.t);
      CollectAll(c, h) == if !out.Process? then h
                          else CollectAll(c, Harvest(t, Account(c, h.mon, out.pid, out.proc.wstatus), out.pid))
  {
    CollectForest(h.t);
  }

  lemma LimitedStates(c: Config, m: Monitor, next: nat)
    requires Valid(m.limiter) && next < Timespan.U64
    ensures var n := Throttle(c, m, next); n.mon.state == m.mon.state || n.mon.state.Failed?
  {
  }

  lemma SelfThroughDigest(c: Config, w: Watch, b: Batch)
    requires Forest(w.t)
    ensures Digest(c, w, b).0.t.self == w.t.self
  {
    hide Forest, TrackAll, CollectAll;
    var k := TrackAll(c, Tracking(w.t, w.mon.sid), b.events);
    SelfStays(c, Tracking(w.t, w.mon.sid), b.events);
    SelfCollects(c, Harvest(k.t, FindMain(c, w.mon.(sid := k.sid), k.t, b.pidfile), w.last));
  }

  lemma SentInTime(c: Config, w: Watch)
    requires w.sent <= w.clock
    ensures var (v, leave) := Escalate(c, w); !leave ==> v.sent <= v.clock
  {
    hide Drop, Targets;
  }

  lemma Inhabited(s: set<int>)
    requires s != {}
    ensures exists p :: p in s
  {
    assert (forall p :: p !in s) ==> s == {};
  }

  class ServiceMonitor {
    const c: Config
    var state: State
    var pid: int
    var child: int
    var sid: int
    var wstatus: int
    var clock: nat
    var tracker: Tracker
    const limiter: StartLimiter
    ghost var orders: seq<Command>
    ghost var log: seq<Order>
    ghost var trace: seq<Mark>

    /** The monitor as it enters its outer loop. */
    constructor (c: Config, clock: nat)
      requires c.self != INIT_PID && clock < Timespan.U64
      ensures this.c == c && Idle() && AsMonitor() == Boot(c, clock)
      ensures fresh(tracker) && fresh(tracker.processes.Values) && fresh(limiter) && fresh(limiter.startTimes)
    {
      hide Forest, Tracker.Valid;
      this.c, this.clock := c, clock;
      state, pid, child, sid, wstatus := Starting, 0, 0, 0, 0;
      orders, log := [], [];
      trace := if Enabled(c.interval, c.burst) then [Recorded(clock)] else [];
      tracker := new Tracker(c.self, c.selfSid);
      limiter := new StartLimiter(c.interval, c.burst, clock);
      new;
      SelfOfInitial();
    }

    /** What holds between two turns. */
    ghost predicate Idle()
      reads this`tracker, tracker, tracker.processes.Values, limiter, limiter.startTimes
    {
      && c.self != INIT_PID && tracker.Valid() && tracker.procSelf.pid == c.self
      && limiter.Valid() && limiter.interval == c.interval
    }

    ghost function AsMonitor(): (m: Monitor)
      reads this, tracker, tracker.processes.Values, limiter, limiter.startTimes
    {
      Monitor(AsMon(), tracker.Model(), clock, limiter.Model(), trace)
    }

    /** The tracker is the same or a new one, and so are its nodes. */
    twostate predicate OwnTracker()
      reads this, tracker
    {
      (tracker == old(tracker) || fresh(tracker)) && fresh(tracker.processes.Values - old(tracker.processes.Values))
    }

    ghost function AsMon(): (m: Mon)
      reads this
    {
      Mon(state, pid, child, sid, wstatus)
    }

    /** The loop's state, given the loop's own variables. */
    ghost function AsWatch(sent: nat, passes: nat, all: bool, last: int): (w: Watch)
      reads this, tracker, tracker.processes.Values
    {
      Watch(AsMon(), tracker.Model(), clock, sent, passes, all, last, log, orders)
    }

    /** What is left of the loop's state once it is over. */
    ghost predicate Matches(w: Watch)
      reads this
    {
      AsMon() == w.mon && clock == w.clock && log == w.log && orders == w.orders
    }

    /** monitor_control_socket_ingest: serves one session. */
    method Serve(s: Session)
      modifies this`state, this`orders
      ensures state == ObeyAll(old(state), s.requests)
      ensures orders == old(orders) + Orders(s.requests)
    {
      var rs, i := s.requests, 0;
      assert rs[0..] == rs;
      while i < |rs|
        invariant i <= |rs|
        invariant ObeyAll(state, rs[i..]) == ObeyAll(old(state), rs)
        invariant orders + Orders(rs[i..]) == old(orders) + Orders(rs)
      {
        var r := rs[i];
        assert rs[i..][1..] == rs[i + 1..];
        if r.privileged {
          match r.command {
            case Stop =>
              if !(state.Stopping? || state.Stopped? || state.Failed? || state.Defunct?) {
                state := Stopping;
              }
            case Restart => state := Restarting;
            case Other =>
          }
          if !r.command.Other? {
            orders := orders + [r.command];
          }
        }
        i := i + 1;
      }
    }

    /** Ingests a batch of events, with monitor_proc_event as the callback. */
    method IngestAll(evs: seq<Event>)
      requires tracker.Valid() && PossibleEvents(c, Tracking(tracker.Model(), sid), evs)
      modifies this`sid, tracker, tracker.processes.Values
      ensures tracker.Valid() && fresh(tracker.processes.Values - old(tracker.processes.Values))
      ensures Tracking(tracker.Model(), sid) == TrackAll(c, old(Tracking(tracker.Model(), sid)), evs)
    {
      hide Forest, WellFormed, Ingest;
      var i := 0;
      assert evs[0..] == evs;
      while i < |evs|
        invariant i <= |evs| && tracker == old(tracker)
        invariant tracker.Valid() && fresh(tracker.processes.Values - old(tracker.processes.Values))
        invariant PossibleEvents(c, Tracking(tracker.Model(), sid), evs[i..])
        invariant TrackAll(c, Tracking(tracker.Model(), sid), evs[i..])
               == TrackAll(c, old(Tracking(tracker.Model(), sid)), evs)
      {
        ghost var k := Tracking(tracker.Model(), sid);
        assert evs[i..][1..] == evs[i + 1..];
        var drop := IngestOne(evs[i]);
        i := i + 1;
      }
    }

    method IngestOne(ev: Event) returns (drop: bool)
      requires tracker.Valid() && WellFormed(tracker.Model(), ev, Drops(c, sid, ev))
      modifies this`sid, tracker, tracker.processes.Values
      ensures tracker.Valid() && fresh(tracker.processes.Values - old(tracker.processes.Values))
      ensures Tracking(tracker.Model(), sid) == Track(c, old(Tracking(tracker.Model(), sid)), ev)
    {
      hide Forest, WellFormed, Ingest;
      drop := ev.Setsid? && (c.kind != Forking || sid != c.selfSid);
      var known := ev.Setsid? && ev.pid in tracker.processes;
      assert ev.Setsid? ==> (ev.pid in tracker.processes <==> ev.pid in tracker.Model().procs);
      tracker.IngestEvent(ev, drop);
      if known && !drop {
        sid := ev.pid;
      }
    }

    /** The collecting loop; also tells whether nothing is left to collect from. */
    method Reap(first: int) returns (last: int, empty: bool)
      requires tracker.Valid()
      modifies this`state, this`child, this`wstatus, tracker, tracker.processes.Values
      ensures tracker.Valid() && fresh(tracker.processes.Values - old(tracker.processes.Values))
      ensures Harvest(tracker.Model(), AsMon(), last) == CollectAll(c, old(Harvest(tracker.Model(), AsMon(), first)))
      ensures empty == (|tracker.Model().procs| == 2)
    {
      hide Forest, Account, Collect, CollectAll, Tracker.Valid, Tracker.Model;
      last, empty := first, false;
      ForestOf();
      ghost var goal := CollectAll(c, Harvest(tracker.Model(), AsMon(), first));
      var more := true;
      while more
        invariant tracker == old(tracker) && pid == old(pid) && sid == old(sid)
        invariant tracker.Valid() && fresh(tracker.processes.Values - old(tracker.processes.Values))
        invariant Forest(tracker.Model())
        invariant more ==> CollectAll(c, Harvest(tracker.Model(), AsMon(), last)) == goal
        invariant !more ==> Harvest(tracker.Model(), AsMon(), last) == goal && empty == (|tracker.Model().procs| == 2)
        decreases if more then |tracker.Model().ready| + 1 else 0
      {
        last, more, empty := ReapOne(last);
      }
    }

    /** Collects one process, if there is one. */
    method ReapOne(last: int) returns (last': int, more: bool, empty: bool)
      requires tracker.Valid()
      modifies this`state, this`child, this`wstatus, tracker, tracker.processes.Values
      ensures tracker.Valid() && Forest(tracker.Model())
      ensures fresh(tracker.processes.Values - old(tracker.processes.Values))
      ensures var h, g := Harvest(tracker.Model(), AsMon(), last'), old(Harvest(tracker.Model(), AsMon(), last));
        && (more ==> CollectAll(c, h) == CollectAll(c, g) && |h.t.ready| < |g.t.ready|)
        && (!more ==> h == CollectAll(c, g) && empty == (|h.t.procs| == 2))
    {
      hide Forest, Account, Collect, CollectAll, Tracker.Valid, Tracker.Model;
      ForestOf();
      CollectFacts(tracker.Model());
      CollectUnfolds(c, Harvest(tracker.Model(), AsMon(), last));
      last', more, empty := last, true, false;
      var proc, outcome := tracker.CollectProcess();
      ForestOf();
      if proc == null {
        more, empty := false, outcome.NoChildren?;
      } else {
        last' := proc.pid;
        Bury(proc.pid, proc.wstatus);
      }
    }

    /** The body of the collecting loop. */
    method Bury(ended: int, status: int)
      modifies this`state, this`child, this`wstatus
      ensures AsMon() == Account(c, old(AsMon()), ended, status)
    {
      if ended == child {
        if c.kind == Forking {
          state := Running;
        }
        child := 0;
      }
      if ended == pid {
        wstatus := status;
      }
    }

    /** Whether process_foreach with monitor_kill sends the signal to a process of the table. */
    method Hits(p: int, all: bool) returns (hit: bool)
      requires tracker.Valid() && tracker.procSelf.pid == c.self && p in tracker.processes
      ensures hit == (p != INIT_PID && p != c.self && (all || p == pid))
    {
      hide Forest, AllIn;
      var proc := tracker.processes[p];
      hit := false;
      if proc != tracker.procInit && proc != tracker.procSelf {
        if proc.pid != c.self && proc.pid != INIT_PID && (all || proc.pid == pid) {
          hit := true;
        }
      }
    }

    /** The processes that a pass signals. */
    method Signal(all: bool) returns (targets: set<int>)
      requires tracker.Valid() && tracker.procSelf.pid == c.self
      ensures targets == set p | p in Tracked(tracker.Model()) && (all || p == pid)
    {
      hide Forest, Tracker.Valid, Tracker.Model, Tracked;
      targets := {};
      var todo := tracker.processes.Keys;
      while todo != {}
        invariant todo <= tracker.processes.Keys
        invariant Done(targets, todo, all)
        decreases |todo|
      {
        Inhabited(todo);
        var p :| p in todo;
        var hit := Hits(p, all);
        if hit {
          targets := targets + {p};
        }
        todo := todo - {p};
      }
      AllDone(targets, all);
    }

    /** The processes outside `todo` that the pass is to signal. */
    ghost predicate Done(targets: set<int>, todo: set<int>, all: bool)
      reads this, tracker
    {
      forall p :: p in targets <==>
        p in tracker.processes && p !in todo && p != INIT_PID && p != c.self && (all || p == pid)
    }

    lemma AllDone(targets: set<int>, all: bool)
      requires Done(targets, {}, all) && tracker.procSelf.pid == c.self
      ensures targets == set p | p in Tracked(tracker.Model()) && (all || p == pid)
    {
      var tracked := Tracked(tracker.Model());
      assert forall p :: p in tracked <==> p in tracker.processes && p != INIT_PID && p != c.self;
      SameSet(targets, set p | p in tracked && (all || p == pid));
    }

    /** Stops following a process; a root would come back with the drain that follows. */
    method Abandon(p: int)
      requires tracker.Valid() && tracker.procSelf.pid == c.self
      modifies tracker, tracker.processes.Values
      ensures tracker.Valid() && fresh(tracker.processes.Values - old(tracker.processes.Values))
    {
      if p != INIT_PID && p != c.self {
        var _ := tracker.DropProcess(p);
      }
    }

    /** The kill order, once it is due. */
    method Press(sent: nat, passes: nat, all: bool, ghost last: int)
      returns (sent': nat, passes': nat, all': bool, leave: bool)
      requires tracker.Valid() && tracker.procSelf.pid == c.self
      modifies this`log, tracker, tracker.processes.Values
      ensures tracker.Valid() && fresh(tracker.processes.Values - old(tracker.processes.Values))
      ensures leave == Escalate(c, old(AsWatch(sent, passes, all, last))).1
      ensures Matches(Escalate(c, old(AsWatch(sent, passes, all, last))).0)
      ensures !leave ==> AsWatch(sent', passes', all', last) == Escalate(c, old(AsWatch(sent, passes, all, last))).0
    {
      hide Drop, Forest, Tracker.Valid, Tracker.Model;
      sent', passes', all', leave := sent, passes, all, false;
      if pid <= 0 {
        if sent > 0 {
          Abandon(child);
          leave := true;
        } else {
          sent' := clock;
        }
      } else if c.killMode == NoKill {
        Abandon(pid);
        leave := true;
      } else {
        passes' := passes + 1;
        var signal := Term;
        if passes' == 1 {
          if c.killMode == ControlGroup {
            all' := true;
          }
        } else if passes' == 2 {
          if c.killMode == Mixed {
            all' := true;
          }
          signal := Kill;
        } else {
          log := log + [GiveUp(clock)];
          leave := true;
          return;
        }
        sent' := clock;
        var targets := Signal(all');
        log := log + [Pass(clock, signal, pid, Tracked(tracker.Model()), targets)];
      }
    }

    /** The first half of a pass: the control socket and the kill order. */
    method AttendTo(p: Poll, sent: nat, passes: nat, all: bool, ghost last: int)
      returns (sent': nat, passes': nat, all': bool, out: Outcome)
      requires tracker.Valid() && tracker.procSelf.pid == c.self && sent <= clock
      modifies this`state, this`clock, this`orders, this`log, tracker, tracker.processes.Values
      ensures tracker.Valid() && fresh(tracker.processes.Values - old(tracker.processes.Values))
      ensures out == Attend(c, old(AsWatch(sent, passes, all, last)), p).1
      ensures Matches(Attend(c, old(AsWatch(sent, passes, all, last)), p).0)
      ensures out.Going? ==>
        AsWatch(sent', passes', all', last) == Attend(c, old(AsWatch(sent, passes, all, last)), p).0
      ensures out.Going? ==> sent' <= clock
    {
      hide Escalate, Forest, Tracker.Valid, Tracker.Model, ObeyAll, Orders;
      sent', passes', all', out := sent, passes, all, Going;
      if p.failed {
        return sent', passes', all', Left(false);
      }
      var ok := Receive(p, sent, passes, all, last);
      if !ok {
        return sent', passes', all', Left(false);
      }
      if IsStopping(state) && clock - sent > c.stopTimeout {
        SentInTime(c, AsWatch(sent, passes, all, last));
        var leave;
        sent', passes', all', leave := Press(sent, passes, all, last);
        if leave {
          out := Left(true);
        }
      }
    }

    /** The clock and the control socket. */
    method Receive(p: Poll, ghost sent: nat, ghost passes: nat, ghost all: bool, ghost last: int) returns (ok: bool)
      modifies this`state, this`clock, this`orders
      ensures var w := old(AsWatch(sent, passes, all, last));
        var u := w.(clock := w.clock + p.elapsed);
        AsWatch(sent, passes, all, last) == if p.control.Some? then Heed(u, p.control.value) else u
      ensures ok == (p.control.Some? ==> p.control.value.ok)
    {
      hide Tracker.Model, ObeyAll, Orders;
      clock := clock + p.elapsed;
      ok := true;
      if p.control.Some? {
        Serve(p.control.value);
        ok := p.control.value.ok;
      }
    }

    /** monitor_find_main_pid, if it is time for it. */
    method SeekMain(pidfile: int)
      requires tracker.Valid()
      modifies this`pid
      ensures AsMon() == FindMain(c, old(AsMon()), tracker.Model(), pidfile)
    {
      hide Forest;
      assert tracker.Model().procs.Keys == tracker.processes.Keys;
      if pid <= 0 && child == 0 && c.pidfile {
        pid := pidfile;
        if pid > 0 && pid !in tracker.processes {
          pid := 0;
        }
      }
    }

    /** The second half of a pass: process events. */
    method DigestBatch(b: Batch, ghost sent: nat, ghost passes: nat, ghost all: bool, last: int)
      returns (last': int, out: Outcome)
      requires tracker.Valid() && PossibleEvents(c, Tracking(tracker.Model(), sid), b.events)
      modifies this`state, this`pid, this`child, this`sid, this`wstatus, tracker, tracker.processes.Values
      ensures tracker.Valid() && fresh(tracker.processes.Values - old(tracker.processes.Values))
      ensures var (v, end) := Digest(c, old(AsWatch(sent, passes, all, last)), b);
        out == end && Matches(v) && (out.Going? ==> AsWatch(sent, passes, all, last') == v)
    {
      hide Forest, Tracker.Valid, Tracker.Model, TrackAll, CollectAll, FindMain, PossibleEvents;
      last' := last;
      ghost var mon := AsMon();
      ForestOf();
      IngestAll(b.events);
      ForestOf();
      if b.fatal {
        return last', Left(false);
      }
      SeekMain(b.pidfile);
      var empty;
      last', empty := Reap(last);
      ForestOf();
      if c.kind == Oneshot && wstatus >= 0 {
        state := Running;
        return last', Left(true);
      }
      if wstatus >= 0 {
        if !IsStopping(state) || c.killMode == MainProcess {
          return last', Left(true);
        }
      }
      if empty && last' != 0 {
        return last', Left(true);
      }
      out := Going;
    }

    lemma SelfOfModel()
      requires tracker.Valid()
      ensures Forest(tracker.Model()) && tracker.Model().self == tracker.procSelf.pid
    {
    }

    lemma ForestOf()
      requires tracker.Valid()
      ensures Forest(tracker.Model())
    {
    }

    /** One pass of the loop. */
    method Attempt(p: Poll, sent: nat, passes: nat, all: bool, last: int)
      returns (sent': nat, passes': nat, all': bool, last': int, out: Outcome)
      requires tracker.Valid() && tracker.procSelf.pid == c.self && sent <= clock
      requires PossiblePoll(c, AsWatch(sent, passes, all, last), p)
      modifies this`state, this`pid, this`child, this`sid, this`wstatus, this`clock, this`orders, this`log
      modifies tracker, tracker.processes.Values
      ensures tracker.Valid() && fresh(tracker.processes.Values - old(tracker.processes.Values))
      ensures out == Iterate(c, old(AsWatch(sent, passes, all, last)), p).1
      ensures Matches(Iterate(c, old(AsWatch(sent, passes, all, last)), p).0)
      ensures out.Going? ==>
        AsWatch(sent', passes', all', last') == Iterate(c, old(AsWatch(sent, passes, all, last)), p).0
      ensures out.Going? ==> sent' <= clock && tracker.procSelf.pid == c.self
    {
      hide Forest, Tracker.Valid, Attend, Digest, PossibleEvents;
      last' := last;
      ForestOf();
      ghost var w := AsWatch(sent, passes, all, last);
      sent', passes', all', out := AttendTo(p, sent, passes, all, last);
      if out.Going? && p.batch.Some? {
        SelfThroughDigest(c, AsWatch(sent', passes', all', last), p.batch.value);
        last', out := DigestBatch(p.batch.value, sent', passes', all', last);
      }
    }

    /** The loop of monitor_watch. */
    method FollowService(ps: seq<Poll>) returns (out: Outcome)
      requires tracker.Valid() && tracker.procSelf.pid == c.self && orders == [] && log == []
      requires PossiblePolls(c, Begin(AsMon(), tracker.Model(), clock), ps)
      modifies this`state, this`pid, this`child, this`sid, this`wstatus, this`clock, this`orders, this`log
      modifies tracker, tracker.processes.Values
      ensures tracker.Valid() && fresh(tracker.processes.Values - old(tracker.processes.Values))
      ensures var (w, end) := Loop(c, old(Begin(AsMon(), tracker.Model(), clock)), ps);
        out == end && Matches(w) && (out.Going? ==> tracker.Model() == w.t)
    {
      hide Forest, Tracker.Valid, Tracker.Model, Iterate, PossiblePoll;
      ForestOf();
      ghost var goal := Loop(c, Begin(AsMon(), tracker.Model(), clock), ps);
      var sent: nat, passes: nat, all, last := 0, 0, false, 0;
      var i := 0;
      out := Going;
      assert ps[0..] == ps;
      while i < |ps| && out.Going?
        invariant i <= |ps|
        invariant tracker.Valid() && fresh(tracker.processes.Values - old(tracker.processes.Values))
        invariant Forest(tracker.Model())
        invariant out.Going? ==> sent <= clock && tracker.procSelf.pid == c.self
        invariant out.Going? ==> PossiblePolls(c, AsWatch(sent, passes, all, last), ps[i..])
        invariant out.Going? ==> Loop(c, AsWatch(sent, passes, all, last), ps[i..]) == goal
        invariant out.Left? ==> out == goal.1 && Matches(goal.0)
      {
        assert ps[i..][1..] == ps[i + 1..];
        sent, passes, all, last, out := Attempt(ps[i], sent, passes, all, last);
        ForestOf();
        i := i + 1;
      }
    }

    /** monitor_watch: follows the service until it is gone, then empties the tracker. */
    method WatchService(ps: seq<Poll>) returns (out: Outcome)
      requires c.self != INIT_PID && tracker.Valid() && tracker.procSelf.pid == c.self
      requires PossiblePolls(c, Begin(AsMon(), tracker.Model(), clock), ps)
      modifies this, tracker, tracker.processes.Values
      ensures var (w, end) := Loop(c, old(Begin(AsMon(), tracker.Model(), clock)), ps);
        && out == end && Matches(w) && trace == old(trace)
        && tracker.Model() == if out.Left? then Initial(c.self, c.selfSid) else w.t
      ensures tracker.Valid() && OwnTracker()
    {
      hide Forest, Tracker.Valid, Tracker.Model, Loop, PossiblePolls, Initial;
      ForestOf();
      orders, log := [], [];
      out := FollowService(ps);
      if out.Left? {
        tracker := new Tracker(c.self, c.selfSid);
      }
    }

    // ----- waiting -----

    /** The ingest loop of a wait, without a callback. */
    method NoteEvents(evs: seq<Event>)
      requires tracker.Valid() && PossibleNotes(tracker.Model(), evs)
      modifies tracker, tracker.processes.Values
      ensures tracker.Valid() && fresh(tracker.processes.Values - old(tracker.processes.Values))
      ensures tracker.Model() == NoteAll(old(tracker.Model()), evs)
    {
      hide Forest, WellFormed, Ingest, Tracker.Valid, Tracker.Model;
      var i := 0;
      assert evs[0..] == evs;
      ForestOf();
      while i < |evs|
        invariant i <= |evs|
        invariant tracker.Valid() && fresh(tracker.processes.Values - old(tracker.processes.Values))
        invariant Forest(tracker.Model())
        invariant PossibleNotes(tracker.Model(), evs[i..])
        invariant NoteAll(tracker.Model(), evs[i..]) == NoteAll(old(tracker.Model()), evs)
      {
        assert evs[i..][1..] == evs[i + 1..];
        tracker.IngestEvent(evs[i], false);
        ForestOf();
        i := i + 1;
      }
    }

    /** The collecting loop of a wait. */
    method DiscardAll()
      requires tracker.Valid()
      modifies tracker, tracker.processes.Values
      ensures tracker.Valid() && fresh(tracker.processes.Values - old(tracker.processes.Values))
      ensures tracker.Model() == Discard(old(tracker.Model()))
    {
      hide Forest, Collect, Tracker.Valid, Tracker.Model;
      ForestOf();
      ghost var goal := Discard(tracker.Model());
      var more := true;
      while more
        invariant tracker.Valid() && fresh(tracker.processes.Values - old(tracker.processes.Values))
        invariant Forest(tracker.Model())
        invariant if more then Discard(tracker.Model()) == goal else tracker.Model() == goal
        decreases if more then |tracker.Model().ready| + 1 else 0
      {
        CollectFacts(tracker.Model());
        var proc, _ := tracker.CollectProcess();
        ForestOf();
        more := proc != null;
      }
    }

    ghost function AsWait(): (w: Wait)
      reads this, tracker, tracker.processes.Values
    {
      Wait(state, tracker.Model(), clock, orders)
    }

    /** What one poll brings during a wait. */
    method Hear(p: Poll) returns (ok: bool)
      requires tracker.Valid() && PossibleNews(AsWait(), p)
      modifies this`state, this`orders, tracker, tracker.processes.Values
      ensures tracker.Valid() && fresh(tracker.processes.Values - old(tracker.processes.Values))
      ensures (AsWait(), ok) == Heard(old(AsWait()), p)
    {
      hide Forest, ObeyAll, Orders, PossibleNotes, NoteAll, Discard, Tracker.Valid, Tracker.Model;
      ForestOf();
      if p.control.Some? {
        Serve(p.control.value);
        if !p.control.value.ok {
          return false;
        }
      }
      if p.batch.Some? {
        NoteEvents(p.batch.value.events);
        if p.batch.value.fatal {
          return false;
        }
        DiscardAll();
      }
      ok := true;
    }

    /** monitor_wait: serves the control socket until the deadline or a change of state. */
    method WaitUntil(deadline: nat, ps: seq<Poll>) returns (end: WaitEnd)
      requires tracker.Valid() && PossibleWait(AsWait().(orders := []), state, deadline, ps)
      modifies this`state, this`clock, this`orders, tracker, tracker.processes.Values
      ensures tracker.Valid() && fresh(tracker.processes.Values - old(tracker.processes.Values))
      ensures (AsWait(), end) == WaitFor(old(AsWait().(orders := [])), old(state), deadline, ps)
    {
      hide Forest, Heard, PossibleNews, Tracker.Valid, Tracker.Model;
      orders := [];
      ForestOf();
      var start := state;
      ghost var goal := WaitFor(AsWait(), state, deadline, ps);
      var i := 0;
      assert ps[0..] == ps;
      while state == start
        invariant i <= |ps| && tracker == old(tracker)
        invariant tracker.Valid() && fresh(tracker.processes.Values - old(tracker.processes.Values))
        invariant Forest(tracker.Model())
        invariant PossibleWait(AsWait(), start, deadline, ps[i..])
        invariant WaitFor(AsWait(), start, deadline, ps[i..]) == goal
        decreases |ps| - i
      {
        if i == |ps| {
          return Waiting;
        }
        assert ps[i..][1..] == ps[i + 1..];
        clock := clock + ps[i].elapsed;
        if deadline != 0 && clock >= deadline {
          return Over;
        }
        if ps[i].failed {
          return Broken;
        }
        var ok := Hear(ps[i]);
        ForestOf();
        if !ok {
          return Broken;
        }
        i := i + 1;
      }
      end := Over;
    }

    /** A wait as part of a turn. */
    method Pause(deadline: nat, ps: seq<Poll>) returns (end: WaitEnd)
      requires Idle() && PossibleRest(AsMonitor(), deadline, ps)
      modifies this`state, this`clock, this`orders, this`trace, tracker, tracker.processes.Values
      ensures Idle() && fresh(tracker.processes.Values - old(tracker.processes.Values))
      ensures (AsMonitor(), end) == Rest(old(AsMonitor()), deadline, ps)
    {
      hide Forest, WaitFor, PossibleWait, Tracker.Valid, Tracker.Model, StartLimiter.Model, Marks;
      SelfOfModel();
      end := WaitUntil(deadline, ps);
      SelfOfModel();
      trace := trace + Marks(orders);
      if end.Broken? {
        state := Defunct;
      }
    }

    // ----- the outer loop -----

    /** What becomes of the service once it is gone. */
    method Conclude()
      modifies this`state
      ensures state == Decide(c, old(AsMon()))
    {
      var exit, signal := false, false;
      if wstatus % 128 == 0 {
        exit := (wstatus / 256) % 256 != 0;
      } else if wstatus % 128 != 127 {
        var sig := wstatus % 128;
        signal := sig != 1 && sig != 2 && sig != 15 && sig != 13;
      }
      if state != Running {
        return;
      }
      if c.remain && !exit && !signal {
        state := Remaining;
        return;
      }
      if c.policy == Always
         || (c.policy == OnSuccess && !exit && !signal)
         || (c.policy == OnFailure && (exit || signal))
         || (c.policy == OnAbnormal && signal)
         || (c.policy == OnAbort && signal)
      {
        state := Restarting;
        return;
      }
      state := if exit || signal then Failed else Stopped;
    }

    lemma SelfOfInitial()
      requires tracker.Model() == Initial(c.self, c.selfSid)
      ensures tracker.procSelf.pid == c.self
    {
    }

    lemma SoundNow()
      requires Idle()
      ensures Sound(c, AsMonitor())
    {
    }

    method SuperviseService(ps: seq<Poll>) returns (done: bool)
      requires Idle() && PossiblePolls(c, Begin(AsMon(), tracker.Model(), clock), ps)
      modifies this, tracker, tracker.processes.Values
      ensures (AsMonitor(), done) == Supervise(c, old(AsMonitor()), ps)
      ensures OwnTracker() && (done ==> Idle())
    {
      hide Forest, Loop, Decide, Marks, Initial, Tracker.Valid, Tracker.Model, PossiblePolls;
      ForestOf();
      var out := WatchService(ps);
      if out.Left? {
        SelfOfInitial();
      }
      trace := trace + Marks(orders);
      if out == Left(false) {
        state := Defunct;
      } else if out == Left(true) {
        Conclude();
      }
      done := out.Left?;
    }

    /** What the monitor notes about a service that was just forked. */
    method NoteStart(turn: Turn)
      modifies this`clock, this`wstatus, this`child, this`sid, this`trace, this`state, this`pid
      ensures var r := Started(c, old(AsMonitor()), turn); AsMon() == r.mon && clock == r.clock && trace == r.trace
    {
      hide Tracker.Model, StartLimiter.Model;
      clock := clock + turn.forking;
      wstatus := -1;
      child := turn.child;
      sid := c.selfSid;
      trace := trace + [Forked(clock)];
      if child < 0 {
        state := Defunct;
        return;
      }
      if c.kind == Simple || c.kind == Execing {
        state := Running;
      }
      if c.kind != Forking {
        pid := child;
      }
    }

    method StartService(turn: Turn) returns (done: bool)
      requires Idle() && PossibleStart(c, AsMonitor(), turn)
      modifies this, tracker, tracker.processes.Values
      ensures (AsMonitor(), done) == Launch(c, old(AsMonitor()), turn)
      ensures OwnTracker() && (done ==> Idle())
    {
      hide Forest, Supervise, PossiblePolls, Started, Idle, Tracker.Model, StartLimiter.Model;
      SoundNow();
      NoteStart(turn);
      if turn.child < 0 {
        return true;
      }
      done := SuperviseService(turn.polls);
    }

    /** The start limit, as part of a turn. */
    method Limit(next: nat)
      requires Idle() && next < Timespan.U64
      modifies this`state, this`trace, limiter, limiter.startTimes
      ensures Idle() && AsMonitor() == Throttle(c, old(AsMonitor()), next)
    {
      hide Forest, Tracker.Valid, Tracker.Model, Refuses, Record;
      var ok := limiter.Admit(next);
      if !ok {
        state := Failed;
      } else if limiter.enabled {
        trace := trace + [Recorded(next)];
      }
    }

    /** The start limit and the delay of a restart; the end of the wait, unless the limit refused it. */
    method HoldOff(turn: Turn) returns (end: Option<WaitEnd>)
      requires Idle() && state == Restarting && PossibleTurn(c, AsMonitor(), turn)
      modifies this`state, this`clock, this`orders, this`trace, limiter, limiter.startTimes
      modifies tracker, tracker.processes.Values
      ensures Idle() && fresh(tracker.processes.Values - old(tracker.processes.Values))
      ensures var m := old(AsMonitor());
        var next := NextStart(c, m.clock + turn.elapsed);
        var n := Throttle(c, m.(clock := m.clock + turn.elapsed), next);
        if n.mon.state.Failed? then end.None? && AsMonitor() == n
        else end.Some? && (AsMonitor(), end.value) == Rest(n, next, turn.waits)
    {
      hide Forest, Rest, PossibleStart, PossibleRest, Throttle, NextStart, Tracker.Model, StartLimiter.Model, Idle;
      SoundNow();
      clock := clock + turn.elapsed;
      var next := NextStart(c, clock);
      SoundNow();
      Limit(next);
      if state == Failed {
        return None;
      }
      LimitedStates(c, old(AsMonitor()).(clock := clock), next);
      var e := Pause(next, turn.waits);
      end := Some(e);
    }

    method RestartService(turn: Turn) returns (done: bool)
      requires Idle() && state == Restarting && PossibleTurn(c, AsMonitor(), turn)
      modifies this, limiter, limiter.startTimes, tracker, tracker.processes.Values
      ensures (AsMonitor(), done) == Resume(c, old(AsMonitor()), turn)
      ensures OwnTracker() && (done ==> Idle())
    {
      hide Forest, Launch, Rest, PossibleStart, PossibleRest, Throttle, NextStart;
      hide Tracker.Model, StartLimiter.Model, Idle;
      SoundNow();
      ghost var m := AsMonitor();
      LimitedStates(c, m.(clock := m.clock + turn.elapsed), NextStart(c, m.clock + turn.elapsed));
      var end := HoldOff(turn);
      if end.None? {
        return true;
      }
      if end.value.Waiting? {
        return false;
      }
      if state != Restarting {
        return true;
      }
      done := StartService(turn);
    }

    /** One turn of the outer loop. */
    method TakeTurn(turn: Turn) returns (done: bool)
      requires Idle() && PossibleTurn(c, AsMonitor(), turn) && !Ended(state)
      modifies this, limiter, limiter.startTimes, tracker, tracker.processes.Values
      ensures (AsMonitor(), done) == Step(c, old(AsMonitor()), turn)
      ensures OwnTracker() && (done ==> Idle())
    {
      hide Forest, Launch, Rest, Resume, Supervise, PossibleStart, PossibleRest, Throttle, NextStart;
      hide Initial, Tracker.Valid, Tracker.Model;
      match state {
        case Restarting => done := RestartService(turn);
        case Starting => done := StartService(turn);
        case Running => done := SuperviseService(turn.polls);
        case Stopping =>
          state := Stopped;
          done := true;
        case Remaining =>
          var end := Pause(0, turn.waits);
          done := !end.Waiting?;
        case _ => done := true;
      }
    }

    /** monitor_func: runs the service until the monitor is done with it. */
    method RunService(turns: seq<Turn>)
      requires Idle() && PossibleTurns(c, AsMonitor(), turns)
      modifies this, limiter, limiter.startTimes, tracker, tracker.processes.Values
      ensures AsMonitor() == Run(c, old(AsMonitor()), turns)
    {
      hide Step, PossibleTurn, Sound, Tracker.Valid, Tracker.Model, StartLimiter.Model, Forest;
      SoundNow();
      ghost var goal := Run(c, AsMonitor(), turns);
      var i, done := 0, true;
      assert turns[0..] == turns;
      while i < |turns| && done && !Ended(state)
        invariant i <= |turns| && OwnTracker()
        invariant done ==> Idle() && Sound(c, AsMonitor())
        invariant done ==> PossibleTurns(c, AsMonitor(), turns[i..]) && Run(c, AsMonitor(), turns[i..]) == goal
        invariant !done ==> AsMonitor() == goal
        decreases |turns| - i
      {
        assert turns[i..][1..] == turns[i + 1..];
        done := TakeTurn(turns[i]);
        if done {
          SoundNow();
        }
        i := i + 1;
      }
    }
  }
}
