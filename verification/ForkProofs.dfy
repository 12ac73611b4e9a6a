/** What the parent of fork.c returns, from what the processes did: exactly, in every interleaving. */
module ForkProofs {
  import opened ForkReport

  // ----- the result, from what was sent -----

  /** Nobody is left who could still write. */
  predicate Silent(s: System) {
    !s.parentHolds && !s.interHolds && !s.childHolds
  }

  function Outcome(s: System): (r: int) {
    if s.codeSent then Negated(s.value) else if s.pidSent then s.childPid else -1
  }

  /** The parent's result is the outcome, and nothing can change that any more. */
  ghost predicate Settled(s: System) {
    s.parent.Done? ==> s.parent.result == Outcome(s) && (s.codeSent || Silent(s))
  }

  lemma ReadSettles(s: System, a: Action)
    requires Inv(s) && Enabled(s, a) && (a == ReadPid(true) || a == ReadCode(true))
    ensures Settled(Do(s, a))
  {
  }

  lemma OthersSettle(s: System, a: Action)
    requires Inv(s) && Enabled(s, a) && Settled(s) && !a.ReadPid? && !a.ReadCode?
    ensures Settled(Do(s, a))
  {
  }

  lemma {:induction false} RunSettles(s: System, actions: seq<Action>, t: System)
    requires Inv(s) && Settled(s) && Reaches(s, actions, t)
    requires ReadPid(false) !in actions && ReadCode(false) !in actions
    ensures Settled(t)
    decreases |actions|
  {
    hide Inv, Do, Enabled, Settled;
    if actions != [] {
      var a := actions[0];
      assert a in actions;
      StepInv(s, a);
      if a.ReadPid? || a.ReadCode? {
        ReadSettles(s, a);
      } else {
        OthersSettle(s, a);
      }
      RunSettles(Do(s, a), actions[1..], t);
    }
  }

  // ----- what was sent, from what was done -----

  /** What the steps so far say about the child. */
  ghost predicate Told(s: System, h: seq<Action>) {
    && (s.pidSent <==> ReportPid(true) in h)
    && (s.ready <==> ReportReady in h)
    && (s.child.Unborn? || s.child.Reporting? || s.child.Running? ==>
          ReportCode(true) !in h && forall res :: Return(res) !in h)
    && (s.child.Returned? ==> ReportCode(true) !in h && Return(s.child.res) in h)
    && (forall res :: Return(res) in h ==> s.value == res)
    && (s.value != 0 ==> Return(s.value) in h)
    && (s.codeSent <==> s.value != 0 && ReportCode(true) in h && ReportReady !in h)
  }

  lemma InSnoc(h: seq<Action>, a: Action)
    ensures forall b :: b in h + [a] <==> b in h || b == a
  {
  }

  lemma ParentTells(s: System, h: seq<Action>, a: Action)
    requires Inv(s) && Told(s, h) && Enabled(s, a)
    requires a.Fork? || a.CloseWriteEnd? || a.ParentWaits? || a.ReadPid? || a.ReadCode? || a.InterForks? || a.InterDies?
    ensures Told(Do(s, a), h + [a])
  {
    InSnoc(h, a);
  }

  lemma ChildTells(s: System, h: seq<Action>, a: Action)
    requires Inv(s) && Told(s, h) && Enabled(s, a)
    requires a.ReportPid? || a.ReportReady? || a.Exit? || a.ChildDies?
    ensures Told(Do(s, a), h + [a])
  {
    InSnoc(h, a);
  }

  lemma ReturnTells(s: System, h: seq<Action>, a: Action)
    requires Inv(s) && Told(s, h) && Enabled(s, a) && (a.Return? || a.ReportCode?)
    ensures Told(Do(s, a), h + [a])
  {
    InSnoc(h, a);
  }

  lemma {:induction false} RunTells(s: System, h: seq<Action>, actions: seq<Action>, t: System)
    requires Inv(s) && Told(s, h) && Reaches(s, actions, t)
    ensures Told(t, h + actions)
    decreases |actions|
  {
    hide Inv, Do, Enabled, Told;
    if actions == [] {
      assert h + actions == h;
    } else {
      var a := actions[0];
      StepInv(s, a);
      if a.Return? || a.ReportCode? {
        ReturnTells(s, h, a);
      } else if a.ReportPid? || a.ReportReady? || a.Exit? || a.ChildDies? {
        ChildTells(s, h, a);
      } else {
        ParentTells(s, h, a);
      }
      RunTells(Do(s, a), h + [a], actions[1..], t);
      assert h + [a] + actions[1..] == h + actions;
    }
  }

  // ----- the theorem -----

  /** The function failed with this code, had not reported readiness, and got the code across. */
  ghost predicate Failed(actions: seq<Action>, res: int) {
    res != 0 && Return(res) in actions && ReportCode(true) in actions && ReportReady !in actions
  }

  /**
   As long as the parent's own reads work: it returns the failure that the child reported, as a
   negative number, and otherwise the child's pid if the child came to report it, and -1 if not.
   */
  lemma ResultExactly(daemonize: bool, childPid: int, actions: seq<Action>, t: System)
    requires childPid > 0 && Reaches(Start(daemonize, childPid), actions, t) && t.parent.Done?
    requires ReadPid(false) !in actions && ReadCode(false) !in actions
    ensures forall res :: Failed(actions, res) ==> t.parent.result == if res > 0 then -res else res
    ensures (forall res :: !Failed(actions, res)) ==>
      t.parent.result == if ReportPid(true) in actions then childPid else -1
  {
    var s := Start(daemonize, childPid);
    StartInv(daemonize, childPid);
    RunSettles(s, actions, t);
    RunTells(s, [], actions, t);
    SamePid(s, actions, t);
    assert [] + actions == actions;
    hide Reaches;
    if t.codeSent {
      assert Failed(actions, t.value);
    }
  }
}
