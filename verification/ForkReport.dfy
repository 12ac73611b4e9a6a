/**
 The report pipe of fork.c: a parent, an intermediate process when daemonizing, and a
 child that reports its pid first and a failure code second.  Every step of the three
 may interleave with the others, and intermediate and child may die at any step.
 */
module ForkReport {

  const EXIT_FAILURE: int := 1

  datatype Message = Pid(pid: int) | Code(code: int)

  datatype Parent =
    | Forking                // about to fork
    | Closing                // about to close its copy of the write end
    | WaitingForInter        // daemonizing: in waitpid
    | ReadingPid
    | ReadingCode(pid: int)
    | Done(result: int)

  datatype Inter = Absent | Preparing | Gone

  datatype Child =
    | Unborn
    | Reporting              // about to write its pid
    | Running                // in the caller's function
    | Returned(res: int)     // about to report a failure, if there was one
    | Exiting
    | Dead

  /** Who holds the write end, what is in the pipe, and what the child reported and its function returned. */
  datatype System = System(
    daemonize: bool,
    childPid: int,
    parent: Parent,
    inter: Inter,
    child: Child,
    parentHolds: bool,
    interHolds: bool,
    childHolds: bool,
    pipe: seq<Message>,
    pidSent: bool,
    ready: bool,
    value: int,
    codeSent: bool)

  /** Before df_parent forks; the parent has just made the pipe. */
  function Start(daemonize: bool, childPid: int): (s: System) {
    System(daemonize, childPid, Forking, Absent, Unborn, true, false, false, [], false, false, 0, false)
  }

  datatype Action =
    | Fork(ok: bool)
    | CloseWriteEnd
    | InterForks(ok: bool)
    | InterDies
    | ParentWaits
    | ReadPid(ok: bool)
    | ReadCode(ok: bool)
    | ReportPid(ok: bool)
    | ReportReady            // report_ready(), or the close-on-exec of a successful execve()
    | Return(res: int)
    | ReportCode(ok: bool)
    | Exit
    | ChildDies

  predicate Eof(s: System) {
    s.pipe == [] && !s.parentHolds && !s.interHolds && !s.childHolds
  }

  /** When a step can happen; a read blocks until there is something to read or the last writer is gone. */
  predicate Enabled(s: System, a: Action) {
    match a
    case Fork(_) => s.parent == Forking
    case CloseWriteEnd => s.parent == Closing
    case InterForks(_) => s.inter == Preparing
    case InterDies => s.inter == Preparing
    case ParentWaits => s.parent == WaitingForInter && s.inter == Gone
    case ReadPid(ok) => s.parent == ReadingPid && (!ok || s.pipe != [] || Eof(s))
    case ReadCode(ok) => s.parent.ReadingCode? && (!ok || s.pipe != [] || Eof(s))
    case ReportPid(_) => s.child == Reporting
    case ReportReady => s.child == Running
    case Return(_) => s.child == Running
    case ReportCode(_) => s.child.Returned?
    case Exit => s.child == Exiting
    case ChildDies => s.child != Unborn && s.child != Dead
  }

  /** A code as df_parent returns it. */
  function Negated(code: int): (r: int) {
    if code > 0 then -code else code
  }

  function Do(s: System, a: Action): (r: System)
    requires Enabled(s, a)
    ensures r.childPid == s.childPid
  {
    match a
    case Fork(ok) =>
      if !ok then s.(parent := Done(-EXIT_FAILURE), parentHolds := false)
      else if s.daemonize then s.(parent := Closing, inter := Preparing, interHolds := true)
      else s.(parent := Closing, child := Reporting, childHolds := true)
    case CloseWriteEnd =>
      s.(parentHolds := false, parent := if s.daemonize then WaitingForInter else ReadingPid)
    case InterForks(ok) =>
      var gone := s.(inter := Gone, interHolds := false);
      if ok then gone.(child := Reporting, childHolds := true) else gone
    case InterDies => s.(inter := Gone, interHolds := false)
    case ParentWaits => s.(parent := ReadingPid)
    case ReadPid(ok) =>
      if !ok || s.pipe == [] then s.(parent := Done(-EXIT_FAILURE))
      else s.(parent := ReadingCode(match s.pipe[0] case Pid(p) => p case Code(c) => c), pipe := s.pipe[1..])
    case ReadCode(ok) =>
      if !ok then s.(parent := Done(-EXIT_FAILURE))
      else if s.pipe == [] then s.(parent := Done(s.parent.pid))
      else
        var code := match s.pipe[0] case Pid(p) => p case Code(c) => c;
        s.(parent := Done(if code == 0 then s.parent.pid else Negated(code)), pipe := s.pipe[1..])
    case ReportPid(ok) =>
      if ok then s.(child := Running, pipe := s.pipe + [Pid(s.childPid)], pidSent := true) else s.(child := Exiting)
    case ReportReady => s.(childHolds := false, ready := true)
    case Return(res) => s.(child := Returned(res), value := res)
    case ReportCode(ok) =>
      if s.child.res != 0 && ok && s.childHolds
      then s.(child := Exiting, pipe := s.pipe + [Code(s.child.res)], codeSent := true)
      else s.(child := Exiting)
    case Exit => s.(child := Dead, childHolds := false)
    case ChildDies => s.(child := Dead, childHolds := false)
  }

  ghost predicate Reaches(s: System, actions: seq<Action>, t: System)
    decreases |actions|
  {
    if actions == [] then s == t
    else Enabled(s, actions[0]) && Reaches(Do(s, actions[0]), actions[1..], t)
  }

  // ----- the invariant -----

  /** What is still in the pipe: at most the pid and then one code. */
  ghost predicate PipeOk(s: System) {
    var first, second := if s.pidSent then [Pid(s.childPid)] else [], if s.codeSent then [Code(s.value)] else [];
    match s.parent
    case Done(_) => true
    case ReadingCode(pid) => pid == s.childPid && s.pidSent && s.pipe == second
    case _ => s.pipe == first + second
  }

  /** What the parent returns, and why. */
  ghost predicate ResultOk(s: System) {
    s.parent.Done? ==>
      || s.parent.result == -EXIT_FAILURE
      || (s.parent.result == s.childPid && s.pidSent && Eof(s) && !s.codeSent)
      || (s.codeSent && s.parent.result == Negated(s.value))
  }

  ghost predicate WritersOk(s: System) {
    && (s.parentHolds <==> s.parent == Forking || s.parent == Closing)
    && (s.interHolds <==> s.inter == Preparing)
    && (s.child == Unborn || s.child == Dead ==> !s.childHolds)
    && (s.child == Reporting ==> s.childHolds)
    && (s.child == Running || s.child.Returned? ==> s.childHolds || s.ready)
    && (s.ready ==> !s.childHolds)
  }

  ghost predicate Inv(s: System) {
    && s.childPid > 0
    && PipeOk(s) && ResultOk(s) && WritersOk(s)
    && (s.parent == Forking ==> s.child == Unborn && s.inter == Absent)
    && (s.inter == Preparing ==>
          s.daemonize && s.child == Unborn && (s.parent == Closing || s.parent == WaitingForInter))
    && (s.child == Unborn || s.child == Reporting ==> !s.pidSent)
    && (s.child == Running || s.child.Returned? ==> s.pidSent)
    && (s.ready || s.codeSent ==> s.pidSent)
    && (s.ready ==> !s.codeSent)
    && (s.codeSent ==> s.value != 0 && (s.child == Exiting || s.child == Dead))
    && (s.child.Returned? ==> s.value == s.child.res)
  }

  lemma StartInv(daemonize: bool, childPid: int)
    requires childPid > 0
    ensures Inv(Start(daemonize, childPid))
  {
  }

  /** The steps of the parent that do not read. */
  lemma ParentInv(s: System, a: Action)
    requires Inv(s) && Enabled(s, a) && (a.Fork? || a.CloseWriteEnd? || a.ParentWaits?)
    ensures Inv(Do(s, a))
  {
  }

  lemma ReadInv(s: System, a: Action)
    requires Inv(s) && Enabled(s, a) && (a.ReadPid? || a.ReadCode?)
    ensures Inv(Do(s, a))
  {
  }

  lemma InterInv(s: System, a: Action)
    requires Inv(s) && Enabled(s, a) && (a.InterForks? || a.InterDies?)
    ensures Inv(Do(s, a))
  {
  }

  /** The steps of the child that write. */
  lemma ReportInv(s: System, a: Action)
    requires Inv(s) && Enabled(s, a) && (a.ReportPid? || a.ReportCode?)
    ensures Inv(Do(s, a))
  {
  }

  lemma ChildInv(s: System, a: Action)
    requires Inv(s) && Enabled(s, a) && (a.ReportReady? || a.Return? || a.Exit? || a.ChildDies?)
    ensures Inv(Do(s, a))
  {
  }

  lemma StepInv(s: System, a: Action)
    requires Inv(s) && Enabled(s, a)
    ensures Inv(Do(s, a))
  {
    hide Inv, Do, Enabled;
    if a.Fork? || a.CloseWriteEnd? || a.ParentWaits? {
      ParentInv(s, a);
    } else if a.ReadPid? || a.ReadCode? {
      ReadInv(s, a);
    } else if a.InterForks? || a.InterDies? {
      InterInv(s, a);
    } else if a.ReportPid? || a.ReportCode? {
      ReportInv(s, a);
    } else {
      ChildInv(s, a);
    }
  }

  lemma {:induction false} EveryRunInv(s: System, actions: seq<Action>, t: System)
    requires Inv(s) && Reaches(s, actions, t)
    ensures Inv(t)
    decreases |actions|
  {
    hide Inv, Do, Enabled;
    if actions != [] {
      StepInv(s, actions[0]);
      EveryRunInv(Do(s, actions[0]), actions[1..], t);
    }
  }

  /**
   In every interleaving: a positive result is the child's own pid, with the pipe closed and
   no failure reported; any other result is the generic failure or the negated magnitude of
   what the function returned; and a function that reported readiness is never the latter.
   */
  lemma ReportProtocol(daemonize: bool, childPid: int, actions: seq<Action>, t: System)
    requires childPid > 0 && Reaches(Start(daemonize, childPid), actions, t) && t.parent.Done?
    ensures t.parent.result > 0 ==> t.parent.result == childPid && Eof(t) && !t.codeSent
    ensures t.parent.result <= 0 ==>
      t.parent.result == -EXIT_FAILURE || (t.codeSent && t.parent.result == Negated(t.value))
    ensures t.codeSent ==> t.value != 0 && !t.ready
    ensures t.ready ==> t.parent.result == childPid || t.parent.result == -EXIT_FAILURE
  {
    StartInv(daemonize, childPid);
    EveryRunInv(Start(daemonize, childPid), actions, t);
    SamePid(Start(daemonize, childPid), actions, t);
  }

  lemma {:induction false} SamePid(s: System, actions: seq<Action>, t: System)
    requires Reaches(s, actions, t)
    ensures t.childPid == s.childPid
    decreases |actions|
  {
    hide Do, Enabled;
    if actions != [] {
      SamePid(Do(s, actions[0]), actions[1..], t);
    }
  }

  // ----- readiness is final -----

  /** The system without the function's return value. */
  function Forgetting(s: System): (r: System) {
    s.(value := 0, child := if s.child.Returned? then Returned(0) else s.child)
  }

  function Silenced(a: Action): (r: Action) {
    if a.Return? then Return(0) else a
  }

  lemma StepForgets(s: System, a: Action)
    requires Inv(s) && Enabled(s, a) && s.ready
    ensures Enabled(Forgetting(s), Silenced(a))
    ensures Forgetting(Do(s, a)) == Do(Forgetting(s), Silenced(a)) && Do(s, a).ready
  {
  }

  /** Once readiness is reported, what the function goes on to return makes no difference to the parent. */
  lemma {:induction false} ReadyIsFinal(s: System, actions: seq<Action>, t: System)
    requires Inv(s) && s.ready && Reaches(s, actions, t)
    ensures Reaches(Forgetting(s), seq(|actions|, i requires 0 <= i < |actions| => Silenced(actions[i])), Forgetting(t))
    ensures Forgetting(t).parent == t.parent
    decreases |actions|
  {
    if actions != [] {
      var quiet := seq(|actions|, i requires 0 <= i < |actions| => Silenced(actions[i]));
      var rest := actions[1..];
      StepInv(s, actions[0]);
      StepForgets(s, actions[0]);
      ReadyIsFinal(Do(s, actions[0]), rest, t);
      assert quiet[1..] == seq(|rest|, i requires 0 <= i < |rest| => Silenced(rest[i]));
    }
  }

  /** A parent that reads is not left waiting once every writer is gone. */
  lemma NoWriterNoWait(s: System)
    requires Inv(s) && !s.interHolds && !s.childHolds
    requires s.parent == ReadingPid || s.parent.ReadingCode?
    ensures Enabled(s, ReadPid(true)) || Enabled(s, ReadCode(true))
  {
  }
}
