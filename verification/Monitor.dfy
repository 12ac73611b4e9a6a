/**
 The outer loop of the service monitor: start the service, watch it, and restart it
 according to its policy and the start limit, while obeying control commands.
 */
module Monitor {
  import opened Basics
  import opened ProcessTable
  import opened ProcessForest
  import opened Watch
  import opened Limiter
  import Timespan

  /** What a run did that its properties speak of, in order. */
  datatype Mark = Recorded(at: nat) | Forked(at: nat) | Ordered(command: Command)

  datatype Monitor = Monitor(mon: Mon, t: Table, clock: nat, limiter: Limiter, trace: seq<Mark>)

  /** The tracker is in order and is the monitor's own, and so is the limiter. */
  ghost predicate Sound(c: Config, m: Monitor) {
    Forest(m.t) && m.t.self == c.self && Valid(m.limiter)
  }

  /**
   What the environment does during one turn of the outer loop: clock advances, what comes
   in while the monitor waits, the result of the fork, and what comes in while it watches.
   */
  datatype Turn = Turn(elapsed: nat, waits: seq<Poll>, forking: nat, child: int, polls: seq<Poll>)

  predicate Ended(state: State) {
    state.Stopped? || state.Failed? || state.Defunct?
  }

  function Marks(orders: seq<Command>): (r: seq<Mark>) {
    seq(|orders|, i requires 0 <= i < |orders| => Ordered(orders[i]))
  }

  // ----- waiting -----

  /** One event while nobody watches: there is no callback, so nothing is dropped. */
  ghost function Note(t: Table, ev: Event): (r: Table)
    requires Forest(t)
    ensures Forest(r) && r.self == t.self
  {
    if !WellFormed(t, ev, false) then t
    else
      ApplyForest(t, Handle(ev, false));
      IngestSelf(t, ev, false);
      Ingest(t, ev, false)
  }

  ghost function NoteAll(t: Table, evs: seq<Event>): (r: Table)
    requires Forest(t)
    ensures Forest(r) && r.self == t.self
    decreases |evs|
  {
    if evs == [] then t else NoteAll(Note(t, evs[0]), evs[1..])
  }

  /** Collects whatever there is to collect, without taking notice of it. */
  ghost function Discard(t: Table): (r: Table)
    requires Forest(t)
    ensures Forest(r) && r.self == t.self
    decreases |t.ready|
  {
    var (u, out) := Collect(t);
    if !out.Process? then t
    else
      CollectForest(t);
      Discard(u)
  }

  datatype WaitEnd = Waiting | Broken | Over

  datatype Wait = Wait(state: State, t: Table, clock: nat, orders: seq<Command>)

  /** What a poll brings during a wait, if it does not fail: commands, then process events. */
  ghost function Heard(w: Wait, p: Poll): (r: (Wait, bool))
    requires Forest(w.t)
    ensures Forest(r.0.t) && r.0.t.self == w.t.self && r.0.clock == w.clock
  {
    var v := if p.control.None? then w
             else
               var rs := p.control.value.requests;
               w.(state := ObeyAll(w.state, rs), orders := w.orders + Orders(rs));
    if p.control.Some? && !p.control.value.ok then (v, false)
    else if p.batch.None? then (v, true)
    else
      var t := NoteAll(v.t, p.batch.value.events);
      if p.batch.value.fatal then (v.(t := t), false) else (v.(t := Discard(t)), true)
  }

  /** monitor_wait, over a script; `Waiting` means that the script ended before the wait did. */
  ghost function WaitFor(w: Wait, start: State, deadline: nat, ps: seq<Poll>): (r: (Wait, WaitEnd))
    requires Forest(w.t)
    ensures Forest(r.0.t) && r.0.t.self == w.t.self
    decreases |ps|
  {
    if w.state != start then (w, Over)
    else if ps == [] then (w, Waiting)
    else
      var u := w.(clock := w.clock + ps[0].elapsed);
      if deadline != 0 && u.clock >= deadline then (u, Over)
      else if ps[0].failed then (u, Broken)
      else
        var (v, ok) := Heard(u, ps[0]);
        if !ok then (v, Broken) else WaitFor(v, start, deadline, ps[1..])
  }

  /** A wait as part of a turn; a broken wait ends the monitor. */
  ghost function Rest(m: Monitor, deadline: nat, ps: seq<Poll>): (r: (Monitor, WaitEnd))
    requires Forest(m.t)
    ensures Forest(r.0.t) && r.0.t.self == m.t.self && r.0.limiter == m.limiter
  {
    var (w, end) := WaitFor(Wait(m.mon.state, m.t, m.clock, []), m.mon.state, deadline, ps);
    (m.(mon := m.mon.(state := if end.Broken? then Defunct else w.state),
        t := w.t, clock := w.clock, trace := m.trace + Marks(w.orders)), end)
  }

  // ----- how the service ended -----

  function TermSig(wstatus: int): (r: int) { wstatus % 128 }

  predicate UncleanExit(wstatus: int) {
    TermSig(wstatus) == 0 && (wstatus / 256) % 256 != 0
  }

  /** Killed by a signal other than HUP, INT, PIPE and TERM. */
  predicate UncleanSignal(wstatus: int) {
    TermSig(wstatus) !in {0, 127, 1, 2, 13, 15}
  }

  predicate Restarts(policy: Policy, exit: bool, signal: bool) {
    match policy
    case Never => false
    case Always => true
    case OnSuccess => !exit && !signal
    case OnFailure => exit || signal
    case OnAbnormal => signal
    case OnAbort => signal
  }

  /** The state after the service has gone. */
  function Decide(c: Config, mon: Mon): (s: State) {
    var exit, signal := UncleanExit(mon.wstatus), UncleanSignal(mon.wstatus);
    if !mon.state.Running? then mon.state
    else if c.remain && !exit && !signal then Remaining
    else if Restarts(c.policy, exit, signal) then Restarting
    else if exit || signal then Failed
    else Stopped
  }

  // ----- one turn -----

  /** Watches the service until it is gone, and then forgets all processes; the flag says that this was completed. */
  ghost function Supervise(c: Config, m: Monitor, ps: seq<Poll>): (r: (Monitor, bool))
    requires c.self != INIT_PID && Forest(m.t)
    ensures r.0.limiter == m.limiter && (r.1 ==> Forest(r.0.t) && r.0.t.self == c.self)
  {
    InitialForest(c.self, c.selfSid);
    var (w, out) := Loop(c, Begin(m.mon, m.t, m.clock), ps);
    var state := match out case Going => w.mon.state case Left(ok) => if ok then Decide(c, w.mon) else Defunct;
    var t := if out.Left? then Initial(c.self, c.selfSid) else w.t;
    (m.(mon := w.mon.(state := state), t := t, clock := w.clock, trace := m.trace + Marks(w.orders)), out.Left?)
  }

  /** The monitor's record of a service that was just forked. */
  function Started(c: Config, m: Monitor, turn: Turn): (r: Monitor)
    ensures r.t == m.t && r.limiter == m.limiter
  {
    var at := m.clock + turn.forking;
    var mon := m.mon.(wstatus := -1, child := turn.child, sid := c.selfSid);
    var started := mon.(state := if c.kind.Simple? || c.kind.Execing? then Running else mon.state,
                        pid := if c.kind.Forking? then mon.pid else turn.child);
    m.(mon := if turn.child < 0 then mon.(state := Defunct) else started,
       clock := at, trace := m.trace + [Forked(at)])
  }

  ghost function Launch(c: Config, m: Monitor, turn: Turn): (r: (Monitor, bool))
    requires c.self != INIT_PID && Sound(c, m)
    ensures r.0.limiter == m.limiter && (r.1 ==> Sound(c, r.0))
  {
    var n := Started(c, m, turn);
    if turn.child < 0 then (n, true) else Supervise(c, n, turn.polls)
  }

  /** The approximate time of a restart that is decided now. */
  function NextStart(c: Config, clock: nat): (next: nat)
    ensures next < Timespan.U64
  {
    Timespan.Wrap64(clock + c.delay)
  }

  /** The start limit: refuse the restart, or record it. */
  function Throttle(c: Config, m: Monitor, next: nat): (r: Monitor)
    requires Valid(m.limiter) && next < Timespan.U64
    ensures Valid(r.limiter) && r.t == m.t
  {
    if m.limiter.Off? then m
    else if Refuses(m.limiter, c.interval, next) then m.(mon := m.mon.(state := Failed))
    else m.(limiter := Record(m.limiter, next), trace := m.trace + [Recorded(next)])
  }

  ghost function Resume(c: Config, m: Monitor, turn: Turn): (r: (Monitor, bool))
    requires c.self != INIT_PID && Sound(c, m)
    ensures r.1 ==> Sound(c, r.0)
  {
    var next := NextStart(c, m.clock + turn.elapsed);
    var n := Throttle(c, m.(clock := m.clock + turn.elapsed), next);
    if n.mon.state.Failed? then (n, true)
    else
      var (w, end) := Rest(n, next, turn.waits);
      if end.Waiting? then (w, false)
      else if !w.mon.state.Restarting? then (w, true)
      else Launch(c, w, turn)
  }

  /** One turn of the outer loop; the flag is false if the turn's script ended inside it. */
  ghost function Step(c: Config, m: Monitor, turn: Turn): (r: (Monitor, bool))
    requires c.self != INIT_PID && Sound(c, m)
    ensures r.1 ==> Sound(c, r.0)
  {
    match m.mon.state
    case Restarting => Resume(c, m, turn)
    case Starting => Launch(c, m, turn)
    case Running => Supervise(c, m, turn.polls)
    case Stopping => (m.(mon := m.mon.(state := Stopped)), true)
    case Remaining => var (w, end) := Rest(m, 0, turn.waits); (w, !end.Waiting?)
    case _ => (m, true)
  }

  /** The outer loop over a script of turns. */
  ghost function Run(c: Config, m: Monitor, turns: seq<Turn>): (r: Monitor)
    requires c.self != INIT_PID && Sound(c, m)
    decreases |turns|
  {
    if turns == [] || Ended(m.mon.state) then m
    else
      var (n, done) := Step(c, m, turns[0]);
      if done then Run(c, n, turns[1..]) else n
  }

  /** The monitor as it enters its outer loop. */
  ghost function Boot(c: Config, clock: nat): (m: Monitor)
    requires c.self != INIT_PID
    ensures Sound(c, m)
  {
    InitialForest(c.self, c.selfSid);
    var l := Start(c.interval, c.burst, clock);
    var trace := if l.Off? then [] else [Recorded(Timespan.Wrap64(clock))];
    Monitor(Mon(Starting, 0, 0, 0, 0), Initial(c.self, c.selfSid), clock, l, trace)
  }
}
