/**
 The inner loop of the service monitor: it follows the service's processes, obeys
 control commands, and kills what does not stop.  Clock readings, commands, process
 events and failures are inputs; every sequence of inputs is a run.
 */
module Watch {
  import opened Basics
  import opened ProcessTable
  import opened ProcessForest

  datatype Kind = Simple | Execing | Forking | Oneshot | Dbus | Notify | IdleKind
  datatype KillMode = ControlGroup | Mixed | MainProcess | NoKill
  datatype Policy = Never | Always | OnSuccess | OnFailure | OnAbnormal | OnAbort

  /** What the unit file asks for; times are in microseconds. */
  datatype Config = Config(
    kind: Kind, killMode: KillMode, stopTimeout: nat, policy: Policy, remain: bool, delay: nat,
    interval: nat, burst: nat, pidfile: bool, self: int, selfSid: int)

  datatype State = Restarting | Starting | Running | Remaining | Stopping | Stopped | Failed | Defunct

  /** The fields of `struct monitor` that the loops change. */
  datatype Mon = Mon(state: State, pid: int, child: int, sid: int, wstatus: int)

  // ----- control commands -----

  datatype Command = Stop | Restart | Other

  /** One request on the control socket. */
  datatype Request = Request(command: Command, privileged: bool)

  /** A session on the control socket, and whether it ended without an error. */
  datatype Session = Session(requests: seq<Request>, ok: bool)

  function Obey(state: State, r: Request): (s: State) {
    if !r.privileged then state
    else
      match r.command
      case Stop => if state.Stopping? || state.Stopped? || state.Failed? || state.Defunct? then state else Stopping
      case Restart => Restarting
      case Other => state
  }

  function ObeyAll(state: State, rs: seq<Request>): (s: State)
    decreases |rs|
  {
    if rs == [] then state else ObeyAll(Obey(state, rs[0]), rs[1..])
  }

  /** The stop and restart orders that were accepted. */
  function Orders(rs: seq<Request>): (cs: seq<Command>) {
    if rs == [] then []
    else if rs[0].privileged && !rs[0].command.Other? then [rs[0].command] + Orders(rs[1..])
    else Orders(rs[1..])
  }

  predicate IsStopping(state: State) {
    state.Restarting? || state.Stopping?
  }

  // ----- process events -----

  /** The tracker together with the session of the service. */
  datatype Tracking = Tracking(t: Table, sid: int)

  /** monitor_proc_event: whether a process that starts a session is dropped. */
  predicate Drops(c: Config, sid: int, ev: Event) {
    ev.Setsid? && (c.kind != Forking || sid != c.selfSid)
  }

  /** The session of the service after an event. */
  function NextSid(c: Config, k: Tracking, ev: Event): (sid: int) {
    if ev.Setsid? && ev.pid in k.t.procs && !Drops(c, k.sid, ev) then ev.pid else k.sid
  }

  /** One ingested event; an event that the kernel cannot send is left out of the model. */
  ghost function Track(c: Config, k: Tracking, ev: Event): (r: Tracking)
    requires Forest(k.t)
    ensures Forest(r.t)
  {
    var drop := Drops(c, k.sid, ev);
    if !WellFormed(k.t, ev, drop) then k
    else
      ApplyForest(k.t, Handle(ev, drop));
      Tracking(Ingest(k.t, ev, drop), NextSid(c, k, ev))
  }

  ghost function TrackAll(c: Config, k: Tracking, evs: seq<Event>): (r: Tracking)
    requires Forest(k.t)
    ensures Forest(r.t)
    decreases |evs|
  {
    if evs == [] then k else TrackAll(c, Track(c, k, evs[0]), evs[1..])
  }

  // ----- collecting -----

  /** What the collecting loop changes; `last` is the pid of the last process collected. */
  datatype Harvest = Harvest(t: Table, mon: Mon, last: int)

  /** The body of the collecting loop for one terminated process. */
  function Account(c: Config, mon: Mon, pid: int, wstatus: int): (r: Mon) {
    var m := if pid != mon.child then mon
             else mon.(child := 0, state := if c.kind.Forking? then Running else mon.state);
    if pid == mon.pid then m.(wstatus := wstatus) else m
  }

  /** process_collect until it has nothing more to give. */
  ghost function CollectAll(c: Config, h: Harvest): (r: Harvest)
    requires Forest(h.t)
    ensures Forest(r.t)
    decreases |h.t.ready|
  {
    var (t, out) := Collect(h.t);
    if !out.Process? then h
    else
      CollectForest(h.t);
      CollectAll(c, Harvest(t, Account(c, h.mon, out.pid, out.proc.wstatus), out.pid))
  }

  // ----- one pass of the loop -----

  /** A batch of process events: what arrived, whether the connection broke, and the pid file. */
  datatype Batch = Batch(events: seq<Event>, fatal: bool, pidfile: int)

  /** What one call to poll brings. */
  datatype Poll = Poll(failed: bool, elapsed: nat, control: Option<Session>, batch: Option<Batch>)

  datatype Signal = Term | Kill

  /** What the loop did about processes that did not stop. */
  datatype Order = Pass(at: nat, signal: Signal, main: int, alive: set<int>, targets: set<int>) | GiveUp(at: nat)

  datatype Watch = Watch(
    mon: Mon, t: Table, clock: nat, sent: nat, passes: nat, all: bool, last: int,
    log: seq<Order>, orders: seq<Command>)

  datatype Outcome = Going | Left(ok: bool)

  function Heed(w: Watch, s: Session): (r: Watch) {
    w.(mon := w.mon.(state := ObeyAll(w.mon.state, s.requests)), orders := w.orders + Orders(s.requests))
  }

  /** The processes that a pass signals. */
  function Targets(w: Watch, all: bool): (r: set<int>) {
    set p | p in Tracked(w.t) && (all || p == w.mon.pid)
  }

  /** A stop or restart order that has waited long enough; the flag says to leave the loop. */
  ghost function Escalate(c: Config, w: Watch): (r: (Watch, bool)) {
    if w.mon.pid <= 0 then
      if w.sent > 0 then (w.(t := Drop(w.t, w.mon.child)), true) else (w.(sent := w.clock), false)
    else if c.killMode.NoKill? then (w.(t := Drop(w.t, w.mon.pid)), true)
    else if w.passes >= 2 then (w.(passes := w.passes + 1, log := w.log + [GiveUp(w.clock)]), true)
    else
      var first := w.passes == 0;
      var all := w.all || (if first then c.killMode.ControlGroup? else c.killMode.Mixed?);
      var pass := Pass(w.clock, if first then Term else Kill, w.mon.pid, Tracked(w.t), Targets(w, all));
      (w.(passes := w.passes + 1, all := all, sent := w.clock, log := w.log + [pass]), false)
  }

  /** monitor_find_main_pid */
  function FindMain(c: Config, mon: Mon, t: Table, pidfile: int): (r: Mon) {
    if mon.pid > 0 || mon.child != 0 || !c.pidfile then mon
    else mon.(pid := if pidfile > 0 && pidfile !in t.procs then 0 else pidfile)
  }

  /** Whether everything that was being watched is gone. */
  predicate NothingLeft(t: Table, last: int) {
    |t.procs| == 2 && last != 0
  }

  /** The last part of a pass: ingest the events, collect, and decide whether to go on. */
  ghost function Digest(c: Config, w: Watch, b: Batch): (r: (Watch, Outcome))
    requires Forest(w.t)
    ensures Forest(r.0.t)
  {
    var k := TrackAll(c, Tracking(w.t, w.mon.sid), b.events);
    var mon := w.mon.(sid := k.sid);
    if b.fatal then (w.(mon := mon, t := k.t), Left(false))
    else
      var h := CollectAll(c, Harvest(k.t, FindMain(c, mon, k.t, b.pidfile), w.last));
      var v := w.(mon := h.mon, t := h.t, last := h.last);
      if h.mon.wstatus >= 0 && c.kind.Oneshot? then (v.(mon := h.mon.(state := Running)), Left(true))
      else if h.mon.wstatus >= 0 && (!IsStopping(h.mon.state) || c.killMode.MainProcess?) then (v, Left(true))
      else if NothingLeft(h.t, h.last) then (v, Left(true))
      else (v, Going)
  }

  /** The control socket and the kill order, which come before any process event. */
  ghost function Attend(c: Config, w: Watch, p: Poll): (r: (Watch, Outcome))
    ensures r.0.clock >= w.clock && (r.1.Going? ==> r.0.t == w.t)
  {
    if p.failed then (w, Left(false))
    else
      var u := w.(clock := w.clock + p.elapsed);
      var v := if p.control.Some? then Heed(u, p.control.value) else u;
      if p.control.Some? && !p.control.value.ok then (v, Left(false))
      else if IsStopping(v.mon.state) && v.clock - v.sent > c.stopTimeout then
        var (x, leave) := Escalate(c, v);
        (x, if leave then Left(true) else Going)
      else (v, Going)
  }

  /** One pass of the loop. */
  ghost function Iterate(c: Config, w: Watch, p: Poll): (r: (Watch, Outcome))
    requires Forest(w.t)
    ensures r.1.Going? ==> Forest(r.0.t)
  {
    var (v, out) := Attend(c, w, p);
    if out.Left? || p.batch.None? then (v, out) else Digest(c, v, p.batch.value)
  }

  /** The loop over a script of polls; `Going` means that the script ended before the loop did. */
  ghost function Loop(c: Config, w: Watch, ps: seq<Poll>): (r: (Watch, Outcome))
    requires Forest(w.t)
    ensures r.1.Going? ==> Forest(r.0.t)
    decreases |ps|
  {
    if ps == [] then (w, Going)
    else
      var (v, out) := Iterate(c, w, ps[0]);
      if out.Left? then (v, out) else Loop(c, v, ps[1..])
  }

  /** The state in which the loop starts. */
  function Begin(mon: Mon, t: Table, clock: nat): (w: Watch) {
    Watch(mon, t, clock, 0, 0, false, 0, [], [])
  }
}
