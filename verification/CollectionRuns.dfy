/** Exactly-once collection over whole runs of the tracker. */
module CollectionRuns {
  import opened Basics
  import opened ProcessTable
  import opened ProcessForest
  import opened Collection

  ghost function Replay(h: History, ops: seq<Op>): (r: History)
    requires Consistent(h) && Accounted(h) && AllAllowed(h, ops)
    decreases |ops|
  {
    if ops == [] then h else (StepKeepsBooks(h, ops[0]); Replay(Step(h, ops[0]), ops[1..]))
  }

  ghost predicate AllAllowed(h: History, ops: seq<Op>)
    requires Consistent(h) && Accounted(h)
    decreases |ops|
  {
    ops == [] || (Allowed(h.t, ops[0]) && (StepKeepsBooks(h, ops[0]); AllAllowed(Step(h, ops[0]), ops[1..])))
  }

  lemma StepLogs(h: History, op: Op)
    requires Consistent(h) && Allowed(h.t, op)
    ensures Tagged(h)
    ensures var r := Step(h, op); h.collected <= r.collected && h.exits <= r.exits && h.dropped <= r.dropped
  {
    hide Forest, Apply, Renumber;
  }

  lemma {:induction false} EveryRunKeepsBooks(h: History, ops: seq<Op>)
    requires Consistent(h) && Accounted(h) && AllAllowed(h, ops)
    ensures Consistent(Replay(h, ops)) && Accounted(Replay(h, ops))
    ensures h.collected <= Replay(h, ops).collected && h.exits <= Replay(h, ops).exits
    ensures h.dropped <= Replay(h, ops).dropped
    decreases |ops|
  {
    hide Consistent, Accounted, Step;
    if ops != [] {
      StepKeepsBooks(h, ops[0]);
      StepLogs(h, ops[0]);
      EveryRunKeepsBooks(Step(h, ops[0]), ops[1..]);
    }
  }

  lemma StartKeepsBooks(self: int, sid: int)
    requires self != INIT_PID
    ensures Consistent(Start(self, sid)) && Accounted(Start(self, sid))
  {
    InitialForest(self, sid);
  }

  /** A run from an empty tracker that the environment allows. */
  ghost predicate Possible(self: int, sid: int, ops: seq<Op>)
    requires self != INIT_PID
  {
    StartKeepsBooks(self, sid);
    AllAllowed(Start(self, sid), ops)
  }

  ghost function Books(self: int, sid: int, ops: seq<Op>): (h: History)
    requires self != INIT_PID && Possible(self, sid, ops)
  {
    StartKeepsBooks(self, sid);
    Replay(Start(self, sid), ops)
  }

  /**
   In every run from an empty tracker, an instance is collected at most once, in
   the order of the exits, with the status of its own exit, and not if it was dropped.
   */
  lemma CollectedExactlyOnce(self: int, sid: int, ops: seq<Op>) returns (at: seq<nat>)
    requires self != INIT_PID && Possible(self, sid, ops)
    ensures var h := Books(self, sid, ops);
      && |at| == |h.collected|
      && (forall i :: 0 <= i < |at| ==> at[i] < |h.exits| && h.exits[at[i]] == h.collected[i])
      && (forall i :: 0 <= i < |at| ==> h.collected[i].serial !in h.dropped)
      && (forall i, j :: 0 <= i < j < |at| ==> at[i] < at[j] && h.collected[i].serial != h.collected[j].serial)
  {
    StartKeepsBooks(self, sid);
    EveryRunKeepsBooks(Start(self, sid), ops);
    var h := Books(self, sid, ops);
    var kept := KeptIsSubsequence(h.exits, h.dropped);
    at := kept[..|h.collected|];
    assert forall i :: 0 <= i < |at| ==> Kept(h.exits, h.dropped)[i] == h.collected[i];
  }

  /** The table never shrinks below init and the tracker, and ECHILD means that nothing else is left. */
  lemma NoChildrenMeansNoneTracked(t: Table)
    requires Forest(t)
    ensures |t.procs| - 2 == |Tracked(t)|
    ensures Collect(t).1 == NoChildren <==> Tracked(t) == {}
    ensures Collect(t).1 == Again <==> Tracked(t) != {} && t.ready == []
  {
    assert t.procs.Keys == Tracked(t) + {INIT_PID, t.self};
    assert |{INIT_PID, t.self}| == 2;
  }
}
