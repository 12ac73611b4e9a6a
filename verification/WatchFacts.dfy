/**
 What the parts of the watch loop come to, without following them: what is left after collecting,
 where the main process and its status come from, which order counts, and when a pass is the last.
 */
module WatchFacts {
  import opened Basics
  import opened ProcessTable
  import opened ProcessForest
  import opened EventProofs
  import opened Watch
  import opened WatchProofs

  // ----- collecting -----

  function Elements(s: seq<int>): (r: set<int>) {
    set p | p in s
  }

  /** After collecting nothing is queued: the queued processes are gone, and the others are as they were. */
  ghost predicate Reaped(t: Table, u: Table) {
    && u.procs.Keys == t.procs.Keys - Elements(t.ready) && u.ready == [] && u.self == t.self
    && (forall q :: q in u.procs ==>
          q in t.procs && u.procs[q] == t.procs[q].(children := Without(t.procs[q].children, Elements(t.ready))))
  }

  /** What the monitor notes about the processes that it collected. */
  ghost predicate Noted(c: Config, h: Harvest, r: Harvest) {
    var ready := h.t.ready;
    && r.mon.pid == h.mon.pid && r.mon.sid == h.mon.sid
    && (h.mon.pid in ready ==> h.mon.pid in h.t.procs)
    && r.mon.wstatus == (if h.mon.pid in ready then h.t.procs[h.mon.pid].wstatus else h.mon.wstatus)
    && r.mon.child == (if h.mon.child in ready then 0 else h.mon.child)
    && r.mon.state == (if h.mon.child in ready && c.kind.Forking? then Running else h.mon.state)
    && r.last == (if ready == [] then h.last else ready[|ready| - 1])
  }

  lemma {:induction false} HarvestIsExact(c: Config, h: Harvest)
    requires Forest(h.t)
    ensures Reaped(h.t, CollectAll(c, h).t) && Noted(c, h, CollectAll(c, h))
    decreases |h.t.ready|
  {
    CollectIsExact(h.t);
    QueueFacts(h.t);
    var (t, out) := Collect(h.t);
    hide Forest, Collect, Tracked;
    if out.Process? {
      CollectForest(h.t);
      var g := Harvest(t, Account(c, h.mon, out.pid, out.proc.wstatus), out.pid);
      HarvestIsExact(c, g);
      ReapedTwice(h.t, t, CollectAll(c, g).t);
      NotedTwice(c, h, g, CollectAll(c, g));
      CollectAllStep(c, h);
    } else {
      CollectAllStep(c, h);
      NothingReaped(h.t);
    }
  }

  lemma CollectAllStep(c: Config, h: Harvest)
    requires Forest(h.t)
    ensures Forest(Collect(h.t).0)
    ensures var (t, out) := Collect(h.t);
      CollectAll(c, h) == if !out.Process? then h
                          else CollectAll(c, Harvest(t, Account(c, h.mon, out.pid, out.proc.wstatus), out.pid))
  {
    CollectForest(h.t);
  }

  lemma QueueFacts(t: Table)
    requires Forest(t)
    ensures NoDup(t.ready) && (forall p :: p in t.ready ==> p in t.procs)
    ensures t.ready != [] ==> Tracked(t) != {}
  {
    if t.ready != [] {
      var pid := t.ready[0];
      assert pid in t.ready;
      assert pid in Tracked(t);
    }
  }

  lemma NothingReaped(t: Table)
    requires t.ready == []
    ensures Reaped(t, t)
  {
    forall q | q in t.procs ensures Without(t.procs[q].children, Elements(t.ready)) == t.procs[q].children {
      WithoutNothing(t.procs[q].children, Elements(t.ready));
    }
  }

  lemma ReapedTwice(t: Table, u: Table, v: Table)
    requires t.ready != [] && u.ready == t.ready[1..] && u.self == t.self
    requires u.procs.Keys == t.procs.Keys - {t.ready[0]}
    requires forall q :: q in u.procs ==>
      u.procs[q] == t.procs[q].(children := Without(t.procs[q].children, {t.ready[0]}))
    requires Reaped(u, v)
    ensures Reaped(t, v)
  {
    var pid := t.ready[0];
    assert t.ready == [pid] + u.ready;
    assert Elements(t.ready) == {pid} + Elements(u.ready);
    forall q | q in v.procs ensures Without(t.procs[q].children, Elements(t.ready)) == v.procs[q].children {
      WithoutTwice(t.procs[q].children, {pid}, Elements(u.ready));
    }
  }

  lemma NotedTwice(c: Config, h: Harvest, g: Harvest, r: Harvest)
    requires h.t.ready != [] && NoDup(h.t.ready) && forall p :: p in h.t.ready ==> p in h.t.procs
    requires var pid := h.t.ready[0];
      && pid in h.t.procs && g.t.ready == h.t.ready[1..] && g.t.procs.Keys == h.t.procs.Keys - {pid}
      && g.mon == Account(c, h.mon, pid, h.t.procs[pid].wstatus) && g.last == pid
      && forall q :: q in g.t.procs ==> g.t.procs[q].wstatus == h.t.procs[q].wstatus
    requires Noted(c, g, r)
    ensures Noted(c, h, r)
  {
    var pid := h.t.ready[0];
    assert h.t.ready == [pid] + g.t.ready && pid !in g.t.ready;
  }

  // ----- the main process -----

  /** The table that a batch leads to, before anything is collected. */
  ghost function AfterEvents(c: Config, w: Watch, b: Batch): (t: Table)
    requires Forest(w.t)
  {
    TrackAll(c, Tracking(w.t, w.mon.sid), b.events).t
  }

  /** A batch after which the pid file is read and names a tracked process. */
  ghost predicate Credible(c: Config, w: Watch, b: Batch)
    requires Forest(w.t)
  {
    c.pidfile && !b.fatal && w.mon.child == 0 && b.pidfile > 0 && b.pidfile in AfterEvents(c, w, b).procs
  }

  /**
   A pass without a main process finds one exactly if the pid file names a tracked process, and then
   that one; of a pid file that could not be read it keeps the error.
   */
  lemma PassFindsMain(c: Config, w: Watch, b: Batch)
    requires Forest(w.t) && w.mon.pid <= 0
    ensures var pid := Digest(c, w, b).0.mon.pid;
      if Credible(c, w, b) then pid == b.pidfile
      else if c.pidfile && !b.fatal && w.mon.child == 0 then pid == (if b.pidfile > 0 then 0 else b.pidfile)
      else pid == w.mon.pid
  {
    hide TrackAll, CollectAll, Forest;
    var k := TrackAll(c, Tracking(w.t, w.mon.sid), b.events);
    HarvestIsExact(c, Harvest(k.t, FindMain(c, w.mon.(sid := k.sid), k.t, b.pidfile), w.last));
  }

  /** A known main process stays the main process. */
  lemma PassKeepsMain(c: Config, w: Watch, b: Batch)
    requires Forest(w.t) && w.mon.pid > 0
    ensures Digest(c, w, b).0.mon.pid == w.mon.pid
  {
    hide TrackAll, CollectAll, Forest;
    var k := TrackAll(c, Tracking(w.t, w.mon.sid), b.events);
    HarvestIsExact(c, Harvest(k.t, FindMain(c, w.mon.(sid := k.sid), k.t, b.pidfile), w.last));
  }

  /** The first pid of a run that was read from the pid file while that process was tracked. */
  ghost function FirstCredible(c: Config, w: Watch, ps: seq<Poll>): (r: Option<int>)
    requires Forest(w.t)
    decreases |ps|
  {
    if ps == [] then None
    else
      var (v, out) := Attend(c, w, ps[0]);
      if out.Going? && ps[0].batch.Some? && Credible(c, v, ps[0].batch.value) then Some(ps[0].batch.value.pidfile)
      else
        var (x, end) := Iterate(c, w, ps[0]);
        if end.Going? then FirstCredible(c, x, ps[1..]) else None
  }

  lemma AttendKeepsMain(c: Config, w: Watch, p: Poll)
    ensures var v := Attend(c, w, p).0;
      v.mon.pid == w.mon.pid && v.mon.wstatus == w.mon.wstatus && v.mon.child == w.mon.child
  {
    hide Drop, ObeyAll, Orders, Targets, Tracked;
  }

  lemma {:induction false} MainStays(c: Config, w: Watch, ps: seq<Poll>)
    requires Forest(w.t) && w.mon.pid > 0
    ensures Loop(c, w, ps).0.mon.pid == w.mon.pid
    decreases |ps|
  {
    hide Attend, Digest, Forest;
    if ps != [] {
      AttendKeepsMain(c, w, ps[0]);
      var (v, out) := Attend(c, w, ps[0]);
      if out.Going? && ps[0].batch.Some? {
        PassKeepsMain(c, v, ps[0].batch.value);
      }
      var (x, end) := Iterate(c, w, ps[0]);
      if end.Going? {
        MainStays(c, x, ps[1..]);
      }
    }
  }

  /**
   Over every run of the loop that begins without a main process, the main process is the first
   one that the pid file named while it was tracked; as long as there is none, so is none.
   */
  lemma {:induction false} MainIsFirstCredible(c: Config, w: Watch, ps: seq<Poll>)
    requires Forest(w.t) && w.mon.pid <= 0
    ensures var pid := Loop(c, w, ps).0.mon.pid;
      match FirstCredible(c, w, ps)
      case Some(main) => pid == main && main > 0
      case None => pid <= 0
    decreases |ps|
  {
    hide Attend, Digest, Forest, Credible;
    if ps != [] {
      AttendKeepsMain(c, w, ps[0]);
      var (v, out) := Attend(c, w, ps[0]);
      if out.Going? && ps[0].batch.Some? {
        PassFindsMain(c, v, ps[0].batch.value);
        CrediblePid(c, v, ps[0].batch.value);
      }
      var (x, end) := Iterate(c, w, ps[0]);
      if end.Going? {
        if x.mon.pid > 0 {
          MainStays(c, x, ps[1..]);
        } else {
          MainIsFirstCredible(c, x, ps[1..]);
        }
      }
    }
  }

  lemma CrediblePid(c: Config, w: Watch, b: Batch)
    requires Forest(w.t)
    ensures Credible(c, w, b) ==> b.pidfile > 0
  {
  }

  // ----- its status -----

  /** The status with which the main process was last collected in a run, or what was noted before. */
  ghost function MainStatus(c: Config, w: Watch, ps: seq<Poll>): (status: int)
    requires Forest(w.t)
    decreases |ps|
  {
    if ps == [] then w.mon.wstatus
    else
      var (x, end) := Iterate(c, w, ps[0]);
      if end.Going? then MainStatus(c, x, ps[1..])
      else StatusAfter(c, w, ps[0])
  }

  /** The same for one pass: the main process is collected if its exit has been reported. */
  ghost function StatusAfter(c: Config, w: Watch, p: Poll): (status: int)
    requires Forest(w.t)
  {
    var (v, out) := Attend(c, w, p);
    if out.Left? || p.batch.None? || p.batch.value.fatal then w.mon.wstatus
    else
      var t := AfterEvents(c, v, p.batch.value);
      var main := Digest(c, v, p.batch.value).0.mon.pid;
      if main in t.ready && main in t.procs then t.procs[main].wstatus else w.mon.wstatus
  }

  lemma PassStatus(c: Config, w: Watch, p: Poll)
    requires Forest(w.t)
    ensures Iterate(c, w, p).0.mon.wstatus == StatusAfter(c, w, p)
  {
    hide TrackAll, CollectAll, Forest, Attend, FindMain, NothingLeft, IsStopping;
    AttendKeepsMain(c, w, p);
    var (v, out) := Attend(c, w, p);
    if out.Going? && p.batch.Some? && !p.batch.value.fatal {
      var b := p.batch.value;
      var k := TrackAll(c, Tracking(v.t, v.mon.sid), b.events);
      FindMainOnly(c, v.mon.(sid := k.sid), k.t, b.pidfile);
      HarvestIsExact(c, Harvest(k.t, FindMain(c, v.mon.(sid := k.sid), k.t, b.pidfile), v.last));
      QueueFacts(k.t);
    }
  }

  lemma FindMainOnly(c: Config, mon: Mon, t: Table, pidfile: int)
    ensures FindMain(c, mon, t, pidfile).wstatus == mon.wstatus && FindMain(c, mon, t, pidfile).sid == mon.sid
  {
  }

  /** Over every run the noted status is the one with which the main process was collected. */
  lemma {:induction false} StatusIsCollected(c: Config, w: Watch, ps: seq<Poll>)
    requires Forest(w.t)
    ensures Loop(c, w, ps).0.mon.wstatus == MainStatus(c, w, ps)
    decreases |ps|
  {
    hide Iterate, Forest, StatusAfter;
    if ps != [] {
      PassStatus(c, w, ps[0]);
      var (x, end) := Iterate(c, w, ps[0]);
      if end.Going? {
        StatusIsCollected(c, x, ps[1..]);
      }
    }
  }

  // ----- sessions -----

  /**
   A tracked process that starts a session is dropped with its descendants, unless the service is a
   forking one that has no session of its own yet, in which case this becomes its session.
   */
  lemma SessionRule(c: Config, k: Tracking, pid: int)
    requires Forest(k.t) && pid in k.t.procs && !IsRoot(k.t, pid)
    ensures var r := Track(c, k, Setsid(pid));
      if c.kind == Forking && k.sid == c.selfSid
      then r.sid == pid && r.t.procs.Keys == k.t.procs.Keys
      else r.sid == k.sid && r.t.procs.Keys == k.t.procs.Keys - Subtree(k.t, pid)
  {
    hide Ingest, Forest;
    SetsidIsExact(k.t, pid, Drops(c, k.sid, Setsid(pid)));
  }

  // ----- commands -----

  predicate Accepted(r: Request) {
    r.privileged && (r.command == Stop || r.command == Restart)
  }

  /**
   Without an accepted request nothing changes; otherwise the last one decides, except that
   what has ended cannot be stopped.
   */
  lemma {:induction false} LastOrderWins(state: State, rs: seq<Request>, i: int)
    requires -1 <= i < |rs| && (i >= 0 ==> Accepted(rs[i]))
    requires forall j :: i < j < |rs| ==> !Accepted(rs[j])
    ensures ObeyAll(state, rs) ==
      if i < 0 then state
      else if rs[i].command == Restart then Restarting
      else if state in {Stopped, Failed, Defunct} && NoRestart(rs[..i]) then state
      else Stopping
    decreases |rs|
  {
    if rs != [] {
      var tail, next := rs[1..], Obey(state, rs[0]);
      assert forall j :: 0 <= j < |tail| ==> tail[j] == rs[j + 1];
      if i > 0 {
        LastOrderWins(next, tail, i - 1);
        assert rs[..i] == [rs[0]] + tail[..i - 1];
        NoRestartCons(rs[0], tail[..i - 1]);
      } else {
        LastOrderWins(next, tail, -1);
      }
    }
  }

  predicate NoRestart(rs: seq<Request>) {
    forall j :: 0 <= j < |rs| ==> !(Accepted(rs[j]) && rs[j].command == Restart)
  }

  lemma NoRestartCons(r: Request, rs: seq<Request>)
    ensures NoRestart([r] + rs) <==> !(Accepted(r) && r.command == Restart) && NoRestart(rs)
  {
    var all := [r] + rs;
    assert all[0] == r && forall j :: 0 <= j < |rs| ==> rs[j] == all[j + 1];
  }

  // ----- the end of the loop -----

  /** The state when a pass has served its control session. */
  function Commanded(w: Watch, p: Poll): (s: State) {
    if p.control.Some? then ObeyAll(w.mon.state, p.control.value.requests) else w.mon.state
  }

  /** The poll or the control session failed. */
  predicate CutOff(p: Poll) {
    p.failed || (p.control.Some? && !p.control.value.ok)
  }

  /**
   Nothing more is to be done about a stop: there is no main process and none has turned up since the last
   time this was noticed, or nothing may be killed, or both signals were sent.
   */
  predicate Hopeless(c: Config, w: Watch) {
    if w.mon.pid <= 0 then w.sent > 0 else c.killMode == NoKill || w.passes >= 2
  }

  /** The loop gives the service up in this pass. */
  predicate GivesUp(c: Config, w: Watch, p: Poll) {
    var state := Commanded(w, p);
    (state == Stopping || state == Restarting) && w.clock + p.elapsed - w.sent > c.stopTimeout && Hopeless(c, w)
  }

  /** Nothing is left to wait for after a batch: the main process has ended as wanted, or nothing is tracked. */
  ghost predicate Finished(c: Config, v: Watch) {
    || (v.mon.wstatus >= 0 && (c.kind == Oneshot || c.killMode == MainProcess
                               || (v.mon.state != Stopping && v.mon.state != Restarting)))
    || (Tracked(v.t) == {} && v.last != 0)
  }

  /** When a pass is the last one, and whether the loop then reports a failure. */
  lemma PassEndsExactly(c: Config, w: Watch, p: Poll)
    requires Forest(w.t)
    ensures var (v, out) := Iterate(c, w, p);
      var gaveUp := !CutOff(p) && GivesUp(c, w, p);
      && (out == Left(false) <==> CutOff(p) || (!gaveUp && p.batch.Some? && p.batch.value.fatal))
      && (out == Left(true) <==> gaveUp || (!CutOff(p) && p.batch.Some? && !p.batch.value.fatal && Finished(c, v)))
  {
    hide Drop, TrackAll, CollectAll, Forest, ObeyAll, Orders, Targets, FindMain, Tracked;
    AttendEnds(c, w, p);
    hide Attend;
    var (v, out) := Attend(c, w, p);
    if out.Going? && p.batch.Some? {
      BatchEnds(c, v, p.batch.value);
    }
  }

  lemma AttendEnds(c: Config, w: Watch, p: Poll)
    ensures Attend(c, w, p).1 ==
      if CutOff(p) then Left(false) else if GivesUp(c, w, p) then Left(true) else Going
  {
    hide Drop, ObeyAll, Orders, Targets, Tracked;
  }

  /** The process whose offspring is no longer followed when the service is given up, if any. */
  function Abandoned(c: Config, w: Watch): (r: Option<int>) {
    if w.mon.pid <= 0 then Some(w.mon.child)
    else if c.killMode == NoKill then Some(w.mon.pid)
    else None
  }

  /**
   A service that is given up is left behind: without a main process, or with one that may not be
   killed, it is dropped with all its offspring; after both signals everything stays tracked.
   */
  lemma GivenUpExactly(c: Config, w: Watch, p: Poll)
    requires Forest(w.t) && !CutOff(p) && GivesUp(c, w, p)
    ensures var t, left := Iterate(c, w, p).0.t, Abandoned(c, w);
      && (left.Some? && left.value in Tracked(w.t) ==>
            t.procs.Keys == w.t.procs.Keys - Subtree(w.t, left.value) && left.value !in t.procs)
      && (left == None || left.value !in w.t.procs ==> t == w.t)
  {
    AttendEnds(c, w, p);
    AttendDrops(c, w, p);
    hide Attend, Drop, Forest;
    var left := Abandoned(c, w);
    if left.Some? && left.value in Tracked(w.t) {
      DropIsExact(w.t, left.value);
    }
    DropOfNothing(w.t);
  }

  /**
   An order to stop while there is no main process gives the service one chance, of one timeout: the
   first time it is overdue this is only noted, and the service is given up once as much time has
   passed again.
   */
  lemma OneChance(c: Config, w: Watch, p: Poll, q: Poll)
    requires !CutOff(p) && Commanded(w, p) in {Stopping, Restarting} && w.mon.pid <= 0
    requires w.sent == 0 && w.clock + p.elapsed > c.stopTimeout
    ensures var (v, out) := Attend(c, w, p);
      && out == Going && v.t == w.t && v.log == w.log && v.passes == w.passes && v.mon.pid == w.mon.pid
      && v.clock == w.clock + p.elapsed
      && (!CutOff(q) && Commanded(v, q) in {Stopping, Restarting} ==>
            (Attend(c, v, q).1 == Left(true) <==> q.elapsed > c.stopTimeout))
  {
    hide Drop, ObeyAll, Orders, Targets, Tracked;
    AttendEnds(c, Attend(c, w, p).0, q);
  }

  lemma AttendDrops(c: Config, w: Watch, p: Poll)
    requires !CutOff(p) && GivesUp(c, w, p)
    ensures var left := Abandoned(c, w);
      Attend(c, w, p).0.t == if left.Some? then Drop(w.t, left.value) else w.t
  {
    hide Drop, ObeyAll, Orders, Targets, Tracked;
  }

  lemma DropOfNothing(t: Table)
    ensures forall pid :: pid !in t.procs ==> Drop(t, pid) == t
  {
  }

  lemma BatchEnds(c: Config, w: Watch, b: Batch)
    requires Forest(w.t)
    ensures var (v, out) := Digest(c, w, b);
      out == if b.fatal then Left(false) else if Finished(c, v) then Left(true) else Going
  {
    hide TrackAll, CollectAll, FindMain, Tracked;
    var k := TrackAll(c, Tracking(w.t, w.mon.sid), b.events);
    var h := CollectAll(c, Harvest(k.t, FindMain(c, w.mon.(sid := k.sid), k.t, b.pidfile), w.last));
    OnlyRoots(h.t);
  }

  lemma OnlyRoots(t: Table)
    requires Forest(t)
    ensures |t.procs| == 2 <==> Tracked(t) == {}
  {
    assert t.procs.Keys == Tracked(t) + {INIT_PID, t.self};
    assert |{INIT_PID, t.self}| == 2;
    assert |t.procs| == |t.procs.Keys| == |Tracked(t)| + 2;
  }
}
