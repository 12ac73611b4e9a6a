/**
 The kernel counts the listeners of its process event connector but does not say whose
 they are.  cn_proc.c keeps its own share of that count right although acknowledgements
 may be lost, refused, or somebody else's.
 */
module CnProc {
  import opened Basics

  /** What arrives while waiting: process events, and acknowledgements with an error code. */
  datatype Message = Event | Ack(err: nat)

  /** One request: whether the kernel acted on it, and what arrives until the wait for an answer ends. */
  datatype Attempt = Attempt(applied: bool, stream: seq<Message>)

  /** The socket, the flag that cn_proc.c keeps, and what we have in fact added to the kernel's count. */
  datatype Conn = Conn(open: bool, listening: bool, net: int)

  /** The error code of the first acknowledgement, if any arrives. */
  function FirstAck(stream: seq<Message>): (r: Option<nat>) {
    if stream == [] then None else if stream[0].Ack? then Some(stream[0].err) else FirstAck(stream[1..])
  }

  /** cn_proc_listen: the new state, and whether it reports success. */
  function Listen(c: Conn, endis: bool, a: Attempt): (r: (Conn, bool)) {
    if endis == c.listening then (c, true)
    else
      var sent := c.(net := c.net + if !a.applied then 0 else if endis then 1 else -1);
      match FirstAck(a.stream)
      case Some(err) => if err == 0 then (sent.(listening := endis), true) else (sent, false)
      case None => (sent.(listening := endis && sent.listening), false)
  }

  /** cn_proc_disconnect. */
  function Disconnect(c: Conn, a: Attempt): (r: Conn) {
    if !c.open then c
    else (if c.listening then Listen(c, false, a).0 else c).(open := false)
  }

  datatype Op = Connect(ok: bool) | Enable(a: Attempt) | Disable(a: Attempt) | Close(a: Attempt)

  function Apply(c: Conn, op: Op): (r: Conn) {
    match op
    case Connect(ok) => c.(open := c.open || ok)
    case Enable(a) => Listen(c, true, a).0
    case Disable(a) => Listen(c, false, a).0
    case Close(a) => Disconnect(c, a)
  }

  function Run(c: Conn, ops: seq<Op>): (r: Conn)
    decreases |ops|
  {
    if ops == [] then c else Run(Apply(c, ops[0]), ops[1..])
  }

  const START := Conn(false, false, 0)

  /** Our share is never negative, and at least one while we believe to be listening. */
  predicate Safe(c: Conn) {
    c.net >= if c.listening then 1 else 0
  }

  /** A positive answer to an enable that had no effect, or a refusal of a disable that had: not ours to read. */
  predicate Misled(endis: bool, a: Attempt) {
    var ack := FirstAck(a.stream);
    ack.Some? && if endis then ack.value == 0 && !a.applied else ack.value != 0 && a.applied
  }

  /** Whether a call sends a request, to enable or to disable. */
  predicate Sends(c: Conn, op: Op, endis: bool) {
    match op
    case Connect(_) => false
    case Enable(_) => endis && !c.listening
    case Disable(_) => !endis && c.listening
    case Close(_) => !endis && c.open && c.listening
  }

  predicate OpMisled(c: Conn, op: Op) {
    (Sends(c, op, true) && Misled(true, op.a)) || (Sends(c, op, false) && Misled(false, op.a))
  }

  /** None of the requests that a run sends gets a misleading acknowledgement. */
  predicate NeverMisled(c: Conn, ops: seq<Op>)
    decreases |ops|
  {
    ops == [] || (!OpMisled(c, ops[0]) && NeverMisled(Apply(c, ops[0]), ops[1..]))
  }

  lemma {:induction false} FirstAckIs(stream: seq<Message>, k: nat)
    requires k <= |stream| && (forall i :: 0 <= i < k ==> stream[i].Event?) && (k < |stream| ==> stream[k].Ack?)
    ensures FirstAck(stream) == if k < |stream| then Some(stream[k].err) else None
  {
    if k > 0 {
      FirstAckIs(stream[1..], k - 1);
    }
  }

  /**
   A request is made only if it would change something.  It succeeds exactly if the first
   acknowledgement, after any events, is without error.  An error leaves the flag as it was;
   without any acknowledgement we no longer count as listening.
   */
  lemma ListenExactly(c: Conn, endis: bool, a: Attempt, k: nat)
    requires k <= |a.stream| && (forall i :: 0 <= i < k ==> a.stream[i].Event?)
    requires k < |a.stream| ==> a.stream[k].Ack?
    ensures var (d, ok) := Listen(c, endis, a);
      if endis == c.listening then d == c && ok
      else
        && (ok <==> k < |a.stream| && a.stream[k].err == 0)
        && (d.listening <==> if ok then endis else k < |a.stream| && c.listening)
        && d.open == c.open && d.net == c.net + if !a.applied then 0 else if endis then 1 else -1
  {
    FirstAckIs(a.stream, k);
  }

  /** Exactly the misleading acknowledgements can break the count. */
  lemma SafeUnlessMisled(endis: bool, a: Attempt)
    ensures (forall c :: Safe(c) ==> Safe(Listen(c, endis, a).0)) <==> !Misled(endis, a)
  {
    if Misled(endis, a) {
      var c := if endis then START else Conn(true, true, 1);
      assert Safe(c) && !Safe(Listen(c, endis, a).0);
    }
  }

  lemma StepIsSafe(c: Conn, op: Op)
    requires Safe(c) && !OpMisled(c, op)
    ensures Safe(Apply(c, op))
  {
    hide FirstAck;
    SafeUnlessMisled(true, if op.Enable? then op.a else Attempt(false, []));
    SafeUnlessMisled(false, if op.Disable? || op.Close? then op.a else Attempt(false, []));
  }

  /**
   Whatever is lost or refused on the way, the count stays right over every run in which no
   request gets a misleading acknowledgement.
   */
  lemma {:induction false} EveryRunIsSafe(c: Conn, ops: seq<Op>)
    requires Safe(c) && NeverMisled(c, ops)
    ensures Safe(Run(c, ops))
    decreases |ops|
  {
    if ops != [] {
      StepIsSafe(c, ops[0]);
      EveryRunIsSafe(Apply(c, ops[0]), ops[1..]);
    }
  }

  // ----- every disable belongs to an enable -----

  /** How many enables and disables the kernel acted on during a run. */
  function Applied(c: Conn, ops: seq<Op>, endis: bool): (n: nat)
    decreases |ops|
  {
    if ops == [] then 0
    else
      var op := ops[0];
      (if Sends(c, op, endis) && op.a.applied then 1 else 0) + Applied(Apply(c, op), ops[1..], endis)
  }

  lemma {:induction false} NetIsDifference(c: Conn, ops: seq<Op>)
    ensures Run(c, ops).net == c.net + Applied(c, ops, true) - Applied(c, ops, false)
    decreases |ops|
  {
    if ops != [] {
      NetIsDifference(Apply(c, ops[0]), ops[1..]);
    }
  }

  /** For every successful enable there is at most one successful disable. */
  lemma DisablesNeverExceedEnables(ops: seq<Op>)
    requires NeverMisled(START, ops)
    ensures Applied(START, ops, false) <= Applied(START, ops, true)
  {
    NetIsDifference(START, ops);
    EveryRunIsSafe(START, ops);
  }

  /**
   cn_proc_send reports failure as -1 but is tested with `!`, so a request that was never
   sent is waited for like any other; another listener's acknowledgement then costs us a
   listener that we never added.
   */
  lemma FailedSendWithForeignAck()
    ensures var ops := [Connect(true), Enable(Attempt(false, [Event, Ack(0)])), Disable(Attempt(true, []))];
      Run(START, ops).net == -1
  {
    var e := Enable(Attempt(false, [Event, Ack(0)]));
    var d := Disable(Attempt(true, []));
    assert [Event, Ack(0)][1..] == [Ack(0)];
    assert FirstAck([Ack(0)]) == Some(0);
    var c1 := Conn(true, false, 0);
    var c2 := Apply(c1, e);
    assert c2 == Conn(true, true, 0);
    assert Run(c2, [d]) == Apply(c2, d);
    assert Run(c1, [e, d]) == Run(c2, [d]) by { assert [e, d][1..] == [d]; }
    assert [Connect(true), e, d][1..] == [e, d];
  }

  /** The connection is open exactly if the last thing that could change that was a successful connect. */
  lemma {:induction false} OpenExactly(c: Conn, ops: seq<Op>, k: int)
    requires -1 <= k < |ops| && (k >= 0 ==> ops[k] == Connect(true) || ops[k].Close?)
    requires forall i :: k < i < |ops| ==> ops[i] != Connect(true) && !ops[i].Close?
    ensures Run(c, ops).open <==> if k >= 0 then ops[k].Connect? else c.open
    decreases |ops|
  {
    if ops != [] {
      var rest, next := ops[1..], Apply(c, ops[0]);
      assert forall i :: 0 <= i < |rest| ==> rest[i] == ops[i + 1];
      OpenExactly(next, rest, if k > 0 then k - 1 else -1);
    }
  }

  // ----- the code -----

  class Connector {
    var open: bool
    var listening: bool
    ghost var net: int

    ghost function State(): (c: Conn)
      reads this
    {
      Conn(open, listening, net)
    }

    constructor ()
      ensures State() == START
    {
      open, listening, net := false, false, 0;
    }

    /** cn_proc_listen. */
    method SetListening(endis: bool, a: Attempt) returns (ok: bool)
      modifies this
      ensures (State(), ok) == Listen(old(State()), endis, a)
    {
      if endis == listening {
        return true;
      }
      if a.applied {
        net := net + if endis then 1 else -1;
      }
      var i := 0;
      while i < |a.stream|
        invariant 0 <= i <= |a.stream| && open == old(open) && listening == old(listening)
        invariant net == old(net) + if !a.applied then 0 else if endis then 1 else -1
        invariant FirstAck(a.stream) == FirstAck(a.stream[i..])
      {
        if a.stream[i].Ack? {
          if a.stream[i].err != 0 {
            return false;
          }
          listening := endis;
          return true;
        }
        assert a.stream[i..][1..] == a.stream[i + 1..];
        i := i + 1;
      }
      if !endis {
        listening := false;
      }
      ok := false;
    }

    /** cn_proc_disconnect. */
    method Shut(a: Attempt)
      modifies this
      ensures State() == Disconnect(old(State()), a)
    {
      if !open {
        return;
      }
      if listening {
        var _ := SetListening(false, a);
      }
      open := false;
    }

    /** procwatch_reconnect: a success means that we are listening and are counted. */
    method Reconnect(first: Attempt, connected: bool, second: Attempt) returns (ok: bool)
      requires Safe(State()) && (open && listening ==> !Misled(false, first))
      requires connected && !Disconnect(State(), first).listening ==> !Misled(true, second)
      modifies this
      ensures Safe(State())
      ensures var c := Disconnect(old(State()), first).(open := connected);
        (State(), ok) == if connected then Listen(c, true, second) else (c, false)
      ensures ok ==> listening && net >= 1
    {
      SafeUnlessMisled(false, first);
      SafeUnlessMisled(true, second);
      Shut(first);
      open := connected;
      ok := false;
      if open {
        ok := SetListening(true, second);
      }
    }
  }
}
