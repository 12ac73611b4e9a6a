/** What the rc commands answer, what errors do to them, and the names of the links they make. */
module RcProofs {
  import opened Basics
  import opened RcLinks

  /** After enabling, the only link is a start link in run levels 2 to 5 and a stop link in the others. */
  lemma EnabledNames(svc: int, name: string, dirs: seq<Dir>, readings: seq<Reading>)
    requires Ready(name, dirs, readings)
    ensures var after := Manip(Enable, svc, name, dirs, readings, |dirs|).0;
      forall rl :: 0 <= rl < |dirs| ==>
        Targets(after[rl], svc) == {if rl in {2, 3, 4, 5} then "S20" + name else "K80" + name}
  {
    EnableAll(svc, name, dirs, readings);
    hide Manip, Targets;
  }

  // ----- errors in one directory -----

  /** Whether there is no link to keep and nothing in the way of a new one. */
  predicate MustMake(j: Job, dir: Dir, garbage: int, order: seq<string>) {
    j.add && !Kept(j, dir, garbage, order) && (j.want in dir ==> j.want in Removed(j, dir, garbage, order))
  }

  /**
   When links cannot be removed or made.  A link that cannot be removed stays and makes the call
   fail, and so does one that cannot be made; all else is removed as without errors, and a link is
   made only if every removal went well.
   */
  lemma ErrorsExactly(j: Job, dir: Dir, order: seq<string>, garbage: int, symlinkErr: Option<Errno>)
    requires Reads(dir, order) && NoneBroken(dir)
    ensures var (dir', res) := ManipRl(j, dir, order, garbage, symlinkErr);
      var gone := Removed(j, dir, garbage, order);
      var smooth := gone !! j.fails.Keys;
      && (res < 0 <==> !smooth || (MustMake(j, dir, garbage, order) && symlinkErr.Some?))
      && (res >= 0 ==> res == if Kept(j, dir, garbage, order) then 1 else 0)
      && dir' == (if smooth && MustMake(j, dir, garbage, order) && symlinkErr.None?
                  then (dir - gone)[j.want := Link(j.svc)] else dir - (gone - j.fails.Keys))
  {
    ReadsAreSound(dir, order);
    var gone := Removed(j, dir, garbage, order);
    WalkExact(j, Scan(dir, garbage, false, 0, false), order);
    hide Walk, Removed, Kept, Reads;
    if gone !! j.fails.Keys {
      assert gone - j.fails.Keys == gone;
    }
  }

  lemma {:induction false} WalkAppend(j: Job, s: Scan, a: seq<string>, b: seq<string>)
    ensures Walk(j, s, a + b) == Walk(j, Walk(j, s, a), b)
    decreases |a|
  {
    if a == [] {
      assert a + b == b;
    } else if s.stopped {
      assert Walk(j, s, a) == s;
    } else {
      assert (a + b)[0] == a[0] && (a + b)[1..] == a[1..] + b;
      WalkAppend(j, Visit(j, s, a[0]), a[1..], b);
      hide Visit;
    }
  }

  /**
   The first link that stat fails on ends the call with that error.  What was read before it has
   been dealt with, the rest is left alone, and no link is made.
   */
  lemma BrokenEndsScan(j: Job, dir: Dir, order: seq<string>, k: nat, garbage: int, symlinkErr: Option<Errno>)
    requires NoDup(order) && k < |order| && Sound(dir, order[..k])
    requires order[k] in dir && dir[order[k]].Broken?
    ensures ManipRl(j, dir, order, garbage, symlinkErr)
         == (dir - (Removed(j, dir, garbage, order[..k]) - j.fails.Keys), -(dir[order[k]].errno as int))
  {
    var s := Scan(dir, garbage, false, 0, false);
    var name, before := order[k], order[..k];
    assert order == before + order[k..] && order[k..][0] == name;
    assert forall i :: 0 <= i < |before| ==> before[i] == order[i] && before[i] != name;
    WalkAppend(j, s, before, order[k..]);
    WalkExact(j, s, before);
    NotRemoved(j, dir, garbage, before, name);
    var t := Walk(j, s, before);
    var u := t.(ret := 0 - dir[name].errno, stopped := true);
    hide Removed, Kept, Sound;
    assert Visit(j, t, name) == u;
    hide Visit;
    assert Walk(j, t, order[k..]) == Walk(j, u, order[k..][1..]) == u;
  }

  lemma NotRemoved(j: Job, dir: Dir, garbage: int, names: seq<string>, name: string)
    requires name !in names
    ensures name !in Removed(j, dir, garbage, names)
  {
    ClaimedAreRead(dir, garbage, j.svc, names);
    hide Claimed;
  }

  // ----- all run levels -----

  /** The answer for one run level. */
  function Answer(cmd: Command, svc: int, name: string, dir: Dir, r: Reading, rl: nat): (res: int)
    ensures res <= 1
  {
    ManipRl(JobFor(cmd, svc, WantedName(rl, name)), dir, r.order, r.garbage, None).1
  }

  ghost predicate AreAnswers(
    cmd: Command, svc: int, name: string, dirs: seq<Dir>, readings: seq<Reading>, answers: seq<int>)
    requires |answers| <= |dirs| == |readings|
  {
    forall rl :: 0 <= rl < |answers| ==> answers[rl] == Answer(cmd, svc, name, dirs[rl], readings[rl], rl)
  }

  lemma ManipStep(cmd: Command, svc: int, name: string, dirs: seq<Dir>, readings: seq<Reading>, k: nat)
    requires k < |dirs| == |readings|
    ensures var ret, last := Manip(cmd, svc, name, dirs, readings, k).1,
                             Answer(cmd, svc, name, dirs[k], readings[k], k);
      Manip(cmd, svc, name, dirs, readings, k + 1).1 == if last < 0 then last else if ret >= 0 then ret + last else ret
  {
    hide ManipRl, WantedName, JobFor;
  }

  predicate NoneNegative(answers: seq<int>, from: nat) {
    forall rl :: from <= rl < |answers| ==> answers[rl] >= 0
  }

  /** What the answers of the run levels come to. */
  ghost predicate Sums(answers: seq<int>, ret: int) {
    && (NoneNegative(answers, 0) ==> ret == multiset(answers)[1])
    && forall rl :: 0 <= rl < |answers| && answers[rl] < 0 && NoneNegative(answers, rl + 1) ==> ret == answers[rl]
  }

  lemma SumsStep(init: seq<int>, last: int, ret: int)
    requires Sums(init, ret) && last <= 1 && (ret < 0 <==> !NoneNegative(init, 0))
    ensures var next := if last < 0 then last else if ret >= 0 then ret + last else ret;
      Sums(init + [last], next) && (next < 0 <==> !NoneNegative(init + [last], 0))
  {
    var all := init + [last];
    assert forall i :: 0 <= i < |init| ==> all[i] == init[i];
    assert all[|init|] == last;
    assert NoneNegative(all, 0) ==> NoneNegative(init, 0);
    forall rl | 0 <= rl < |init| && all[rl] < 0 && NoneNegative(all, rl + 1)
      ensures NoneNegative(init, rl + 1) && last >= 0
    {
    }
  }

  /** Without errors the answer is how many run levels had a link; otherwise it is the last error. */
  lemma {:induction false} AnswerIsCount(
    cmd: Command, svc: int, name: string, dirs: seq<Dir>, readings: seq<Reading>, answers: seq<int>)
    requires |answers| <= |dirs| == |readings| && AreAnswers(cmd, svc, name, dirs, readings, answers)
    ensures var ret := Manip(cmd, svc, name, dirs, readings, |answers|).1;
      Sums(answers, ret) && (ret < 0 <==> !NoneNegative(answers, 0))
    decreases |answers|
  {
    hide ManipRl, Answer;
    if answers != [] {
      var k := |answers| - 1;
      var init, last := answers[..k], answers[k];
      assert answers == init + [last];
      assert last == Answer(cmd, svc, name, dirs[k], readings[k], k);
      AnswerIsCount(cmd, svc, name, dirs, readings, init);
      ManipStep(cmd, svc, name, dirs, readings, k);
      hide Manip, Sums, NoneNegative;
      SumsStep(init, last, Manip(cmd, svc, name, dirs, readings, k).1);
    }
  }

  /** Asking in one run level tells whether there is a link to the service. */
  lemma QueryAnswer(svc: int, name: string, dir: Dir, r: Reading, rl: nat)
    requires Reads(dir, r.order) && Resolves(dir)
    ensures Answer(Query, svc, name, dir, r, rl) == if Targets(dir, svc) == {} then 0 else 1
  {
    ResolvesIsFine(dir, r, svc);
    QueryExact(svc, WantedName(rl, name), dir, r.order, r.garbage);
    hide ManipRl, NoneStale, WantedName;
  }

  /** Enabling answers whether the run level had the right link; disabling, whether it had any. */
  lemma ChangeAnswers(svc: int, name: string, dir: Dir, r: Reading, rl: nat)
    requires Reads(dir, r.order) && Resolves(dir)
    ensures Answer(Enable, svc, name, dir, r, rl)
         == if (if rl in {2, 3, 4, 5} then "S20" + name else "K80" + name) in Targets(dir, svc) then 1 else 0
    ensures Answer(Disable, svc, name, dir, r, rl) == if Targets(dir, svc) == {} then 0 else 1
  {
    var want := WantedName(rl, name);
    assert want == if rl in {2, 3, 4, 5} then "S20" + name else "K80" + name;
    ResolvesIsFine(dir, r, svc);
    NoStaleNames(dir, r.order, r.garbage, svc);
    hide ManipRl, NoneStale, WantedName, StaleNames, Targets;
    EnableExact(svc, want, dir, r.order, r.garbage);
    DisableExact(svc, want, dir, r.order, r.garbage);
  }
}
