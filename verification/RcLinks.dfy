/**
 The links in the rc directories that make a service enabled, and how systemctl's
 service.c brings them in line while it reads a directory.
 */
module RcLinks {
  import opened Basics

  type Errno = e: int | e > 0 witness 1

  /** What a link leads to; Broken is a stat error other than ENOENT. */
  datatype Entry = Link(inode: int) | Dangling | Broken(errno: Errno) | NotALink

  type Dir = map<string, Entry>

  predicate IsLink(e: Entry) {
    !e.NotALink?
  }

  /** One call of service_manip_rl: the service, the name its link should have, and which unlinks fail. */
  datatype Job = Job(svc: int, want: string, del: bool, add: bool, fails: map<string, Errno>)

  /** The directory, the stat buffer, and the function's variables. */
  datatype Scan = Scan(dir: Dir, sb: int, found: bool, ret: int, stopped: bool)

  // ----- the loop -----

  function Unlink(j: Job, s: Scan, name: string): (r: Scan) {
    if name in j.fails then var e: int := j.fails[name]; s.(ret := -e)
    else s.(dir := s.dir - {name})
  }

  /** The loop body for one entry: a dangling link leaves the stat buffer as it was. */
  function Visit(j: Job, s: Scan, name: string): (r: Scan) {
    if name !in s.dir || s.dir[name].NotALink? then s
    else if s.dir[name].Broken? then s.(ret := 0 - s.dir[name].errno, stopped := true)
    else
      var t := s.(sb := if s.dir[name].Link? then s.dir[name].inode else s.sb);
      if t.sb == j.svc then
        if j.add && name != j.want then Unlink(j, t, name)
        else
          var u := t.(found := true);
          if j.del && !j.add then Unlink(j, u, name) else u
      else if j.add && name == j.want then Unlink(j, t, name)
      else t
  }

  function Walk(j: Job, s: Scan, order: seq<string>): (r: Scan)
    decreases |order|
  {
    if order == [] || s.stopped then s else Walk(j, Visit(j, s, order[0]), order[1..])
  }

  /** The link that is made when none was found; an entry that is in the way is not an error. */
  function AddLink(j: Job, s: Scan, symlinkErr: Option<Errno>): (r: Scan) {
    if !j.add || s.found || s.ret != 0 then s
    else if j.want in s.dir then s
    else if symlinkErr.Some? then s.(ret := 0 - symlinkErr.value)
    else s.(dir := s.dir[j.want := Link(j.svc)])
  }

  /** service_manip_rl on an open directory read in this order; `garbage` is what the stat buffer holds at first. */
  function ManipRl(j: Job, dir: Dir, order: seq<string>, garbage: int, symlinkErr: Option<Errno>): (r: (Dir, int)) {
    var s := AddLink(j, Walk(j, Scan(dir, garbage, false, 0, false), order), symlinkErr);
    (s.dir, if s.ret < 0 then s.ret else if s.found then 1 else 0)
  }

  // ----- which links the loop takes for ours -----

  /** Each entry is read once. */
  ghost predicate Reads(dir: Dir, order: seq<string>) {
    NoDup(order) && forall name :: name in order <==> name in dir
  }

  ghost predicate NoneBroken(dir: Dir) {
    forall name :: name in dir ==> !dir[name].Broken?
  }

  /** Each of these names is an entry that stat does not fail on. */
  ghost predicate Sound(dir: Dir, names: seq<string>) {
    forall i :: 0 <= i < |names| ==> names[i] in dir && !dir[names[i]].Broken?
  }

  /** The stat buffer after an entry. */
  function After(dir: Dir, sb: int, name: string): (r: int) {
    if name in dir && dir[name].Link? then dir[name].inode else sb
  }

  /** The links that are found to be the service's: for a dangling one that is decided by an earlier link. */
  function Claimed(dir: Dir, sb: int, svc: int, order: seq<string>): (r: set<string>)
    decreases |order|
  {
    if order == [] then {}
    else
      var next := After(dir, sb, order[0]);
      (if order[0] in dir && IsLink(dir[order[0]]) && next == svc then {order[0]} else {})
      + Claimed(dir, next, svc, order[1..])
  }

  /** The links that do lead to the service. */
  function Targets(dir: Dir, svc: int): (r: set<string>) {
    set name | name in dir && dir[name] == Link(svc)
  }

  lemma {:induction false} ClaimedAreRead(dir: Dir, sb: int, svc: int, order: seq<string>)
    ensures forall name :: name in Claimed(dir, sb, svc, order) ==> name in order && name in dir && IsLink(dir[name])
    decreases |order|
  {
    if order != [] {
      ClaimedAreRead(dir, After(dir, sb, order[0]), svc, order[1..]);
    }
  }

  /** Removing entries that were already read does not change what the rest of the loop sees. */
  lemma {:induction false} ClaimedSame(dir: Dir, dir': Dir, sb: int, svc: int, order: seq<string>)
    requires forall i :: 0 <= i < |order| ==> order[i] in dir && order[i] in dir' && dir[order[i]] == dir'[order[i]]
    ensures Claimed(dir, sb, svc, order) == Claimed(dir', sb, svc, order)
    decreases |order|
  {
    if order != [] {
      ClaimedSame(dir, dir', After(dir, sb, order[0]), svc, order[1..]);
    }
  }

  /** What the loop unlinks. */
  function Removed(j: Job, dir: Dir, sb: int, order: seq<string>): (r: set<string>) {
    var c := Claimed(dir, sb, j.svc, order);
    if j.add then
      (c - {j.want})
      + (if j.want in order && j.want in dir && IsLink(dir[j.want]) && j.want !in c then {j.want} else {})
    else if j.del then c
    else {}
  }

  function Kept(j: Job, dir: Dir, sb: int, order: seq<string>): (r: bool) {
    var c := Claimed(dir, sb, j.svc, order);
    if j.add then j.want in c else c != {}
  }

  /** What one round of the loop tries to unlink. */
  function Here(j: Job, s: Scan, name: string): (r: set<string>)
    requires name in s.dir
  {
    var ours := IsLink(s.dir[name]) && After(s.dir, s.sb, name) == j.svc;
    if ours && (if j.add then name != j.want else j.del) then {name}
    else if !ours && j.add && name == j.want && IsLink(s.dir[name]) then {name}
    else {}
  }

  lemma VisitExact(j: Job, s: Scan, name: string)
    requires s.ret <= 0 && !s.stopped && name in s.dir && !s.dir[name].Broken?
    ensures var t := Visit(j, s, name);
      && t.dir == s.dir - (Here(j, s, name) - j.fails.Keys) && t.sb == After(s.dir, s.sb, name) && !t.stopped
      && t.ret == (if Here(j, s, name) * j.fails.Keys == {} then s.ret else -(j.fails[name] as int))
      && t.found == (s.found || (IsLink(s.dir[name]) && t.sb == j.svc && (j.add ==> name == j.want)))
  {
    assert Here(j, s, name) == {} || Here(j, s, name) == {name};
    if name in j.fails.Keys {
      assert {name} - j.fails.Keys == {} && {name} * j.fails.Keys == {name};
    } else {
      assert {name} - j.fails.Keys == {name} && {name} * j.fails.Keys == {};
    }
  }

  lemma RemovedStep(j: Job, s: Scan, order: seq<string>)
    requires order != [] && NoDup(order) && forall i :: 0 <= i < |order| ==> order[i] in s.dir
    ensures var next, rest := After(s.dir, s.sb, order[0]), order[1..];
      && Removed(j, s.dir, s.sb, order) == Here(j, s, order[0]) + Removed(j, s.dir, next, rest)
      && (Kept(j, s.dir, s.sb, order) <==>
          Kept(j, s.dir, next, rest) || (IsLink(s.dir[order[0]]) && next == j.svc && (j.add ==> order[0] == j.want)))
  {
    var name, rest := order[0], order[1..];
    var next := After(s.dir, s.sb, name);
    assert order == [name] + rest && name !in rest;
    ClaimedAreRead(s.dir, next, j.svc, rest);
    hide After;
    var c, c' := Claimed(s.dir, s.sb, j.svc, order), Claimed(s.dir, next, j.svc, rest);
    assert c == (if IsLink(s.dir[name]) && next == j.svc then {name} else {}) + c';
    assert name !in c';
  }

  lemma RemovedSame(j: Job, dir: Dir, dir': Dir, sb: int, order: seq<string>)
    requires forall i :: 0 <= i < |order| ==> order[i] in dir && order[i] in dir' && dir[order[i]] == dir'[order[i]]
    ensures Removed(j, dir, sb, order) == Removed(j, dir', sb, order)
    ensures Kept(j, dir, sb, order) == Kept(j, dir', sb, order)
  {
    ClaimedSame(dir, dir', sb, j.svc, order);
    hide Claimed;
    if j.want in order {
      var i :| 0 <= i < |order| && order[i] == j.want;
    }
  }

  lemma RemoveTwice(dir: Dir, a: set<string>, b: set<string>, stuck: set<string>)
    ensures dir - (a - stuck) - (b - stuck) == dir - (a + b - stuck)
    ensures a + b !! stuck <==> a * stuck == {} && b !! stuck
  {
    if a * stuck != {} {
      var name :| name in a * stuck;
      assert name in a + b && name in stuck;
    }
    if !(b !! stuck) {
      var name :| name in b && name in stuck;
      assert name in a + b;
    }
    if a * stuck == {} {
      assert forall name :: name in a && name in stuck ==> name in a * stuck;
    }
  }

  /**
   The loop, entry by entry, removes exactly what it can of `Removed`, finds a link exactly if
   `Kept`, and fails exactly if a removal does.
   */
  lemma {:induction false} WalkExact(j: Job, s: Scan, order: seq<string>)
    requires Sound(s.dir, order) && s.ret <= 0 && !s.stopped && NoDup(order)
    ensures var r, gone := Walk(j, s, order), Removed(j, s.dir, s.sb, order);
      && r.dir == s.dir - (gone - j.fails.Keys)
      && r.found == (s.found || Kept(j, s.dir, s.sb, order))
      && r.ret <= 0 && (r.ret == 0 <==> s.ret == 0 && gone !! j.fails.Keys)
      && !r.stopped
    decreases |order|
  {
    if order != [] {
      var name, rest := order[0], order[1..];
      assert forall i :: 0 <= i < |rest| ==> rest[i] == order[i + 1] && rest[i] != name;
      var t := Visit(j, s, name);
      VisitExact(j, s, name);
      RemovedStep(j, s, order);
      assert forall i :: 0 <= i < |rest| ==> rest[i] in t.dir && t.dir[rest[i]] == s.dir[rest[i]];
      RemovedSame(j, s.dir, t.dir, t.sb, rest);
      RemoveTwice(s.dir, Here(j, s, name), Removed(j, s.dir, t.sb, rest), j.fails.Keys);
      hide Visit, Here, Removed, Kept, After;
      WalkExact(j, t, rest);
      assert Walk(j, s, order) == Walk(j, t, rest);
    } else {
      assert Claimed(s.dir, s.sb, j.svc, order) == {};
      assert s.dir - {} == s.dir;
    }
  }

  // ----- dangling links -----

  /** The stat buffer after reading some entries. */
  function LastSeen(dir: Dir, sb: int, names: seq<string>): (r: int) {
    if names == [] then sb else After(dir, LastSeen(dir, sb, names[..|names| - 1]), names[|names| - 1])
  }

  lemma {:induction false} LastSeenStep(dir: Dir, sb: int, names: seq<string>)
    requires names != []
    ensures LastSeen(dir, sb, names) == LastSeen(dir, After(dir, sb, names[0]), names[1..])
  {
    if |names| > 1 {
      var init := names[..|names| - 1];
      LastSeenStep(dir, sb, init);
      assert names[1..][..|names| - 2] == init[1..];
    } else {
      assert names[..0] == [] && names[1..] == [];
    }
  }

  lemma {:induction false} ClaimedAt(dir: Dir, sb: int, svc: int, order: seq<string>, k: nat)
    requires NoDup(order) && k < |order| && order[k] in dir
    ensures order[k] in Claimed(dir, sb, svc, order)
       <==> IsLink(dir[order[k]]) && LastSeen(dir, sb, order[..k + 1]) == svc
    decreases |order|
  {
    var next, rest := After(dir, sb, order[0]), order[1..];
    LastSeenStep(dir, sb, order[..k + 1]);
    ClaimedAreRead(dir, next, svc, rest);
    assert order == [order[0]] + rest && order[0] !in rest;
    if k == 0 {
      assert order[..1][1..] == [];
    } else {
      ClaimedAt(dir, next, svc, rest, k - 1);
      assert order[..k + 1][1..] == rest[..k];
    }
  }

  /** A dangling link that is read when the stat buffer still describes the service. */
  predicate Stale(dir: Dir, order: seq<string>, garbage: int, svc: int, k: nat)
    requires k < |order|
  {
    order[k] in dir && dir[order[k]].Dangling? && LastSeen(dir, garbage, order[..k]) == svc
  }

  ghost predicate NoneStale(dir: Dir, order: seq<string>, garbage: int, svc: int) {
    forall k :: 0 <= k < |order| ==> !Stale(dir, order, garbage, svc, k)
  }

  /** The dangling links that are taken for the service's. */
  function StaleNames(dir: Dir, order: seq<string>, garbage: int, svc: int): (r: set<string>) {
    set k | 0 <= k < |order| && Stale(dir, order, garbage, svc, k) :: order[k]
  }

  lemma NoStaleNames(dir: Dir, order: seq<string>, garbage: int, svc: int)
    ensures NoneStale(dir, order, garbage, svc) <==> StaleNames(dir, order, garbage, svc) == {}
  {
    var names := StaleNames(dir, order, garbage, svc);
    hide Stale;
    if !NoneStale(dir, order, garbage, svc) {
      var k :| 0 <= k < |order| && Stale(dir, order, garbage, svc, k);
      assert order[k] in names;
    }
  }

  lemma StaleAt(dir: Dir, order: seq<string>, garbage: int, svc: int, k: nat)
    requires NoDup(order) && k < |order|
    ensures order[k] in StaleNames(dir, order, garbage, svc) <==> Stale(dir, order, garbage, svc, k)
  {
    hide Stale;
  }

  lemma ClaimedName(dir: Dir, order: seq<string>, garbage: int, svc: int, k: nat)
    requires Reads(dir, order) && NoneBroken(dir) && k < |order|
    ensures order[k] in Claimed(dir, garbage, svc, order)
       <==> order[k] in Targets(dir, svc) || order[k] in StaleNames(dir, order, garbage, svc)
  {
    var name := order[k];
    assert name in order;
    ClaimedAt(dir, garbage, svc, order, k);
    StaleAt(dir, order, garbage, svc, k);
    assert order[..k + 1][..k] == order[..k];
  }

  /** The loop takes the links to the service for the service's, and the stale ones. */
  lemma ClaimedExactly(dir: Dir, order: seq<string>, garbage: int, svc: int)
    requires Reads(dir, order) && NoneBroken(dir)
    ensures Claimed(dir, garbage, svc, order) == Targets(dir, svc) + StaleNames(dir, order, garbage, svc)
    ensures Targets(dir, svc) !! StaleNames(dir, order, garbage, svc)
    ensures forall name :: name in StaleNames(dir, order, garbage, svc) ==> name in dir && dir[name].Dangling?
  {
    ClaimedAreRead(dir, garbage, svc, order);
    var c, both := Claimed(dir, garbage, svc, order), Targets(dir, svc) + StaleNames(dir, order, garbage, svc);
    forall name | name in c ensures name in both {
      var k :| 0 <= k < |order| && order[k] == name;
      ClaimedName(dir, order, garbage, svc, k);
    }
    forall name | name in both ensures name in c {
      assert name in order;
      var k :| 0 <= k < |order| && order[k] == name;
      ClaimedName(dir, order, garbage, svc, k);
    }
  }

  /** The loop takes exactly the right links for the service's, unless it meets a stale one. */
  lemma ClaimedIsTargets(dir: Dir, order: seq<string>, garbage: int, svc: int)
    requires Reads(dir, order) && NoneBroken(dir)
    ensures Targets(dir, svc) <= Claimed(dir, garbage, svc, order)
    ensures Claimed(dir, garbage, svc, order) == Targets(dir, svc) <==> NoneStale(dir, order, garbage, svc)
  {
    ClaimedExactly(dir, order, garbage, svc);
    NoStaleNames(dir, order, garbage, svc);
    hide Claimed, Targets, StaleNames, NoneStale;
  }

  lemma {:induction false} LastSeenOrigin(dir: Dir, sb: int, names: seq<string>, svc: int)
    requires forall i :: 0 <= i < |names| ==> names[i] !in Targets(dir, svc)
    ensures LastSeen(dir, sb, names) == svc ==> sb == svc
  {
    if names != [] {
      LastSeenOrigin(dir, sb, names[..|names| - 1], svc);
    }
  }

  /** Where no link leads to the service, only what the stat buffer held at first can make a link stale. */
  lemma StaleWithoutTarget(dir: Dir, order: seq<string>, garbage: int, svc: int)
    requires Targets(dir, svc) == {} && !NoneStale(dir, order, garbage, svc)
    ensures garbage == svc
  {
    var k :| 0 <= k < |order| && Stale(dir, order, garbage, svc, k);
    LastSeenOrigin(dir, garbage, order[..k], svc);
  }

  // ----- the three commands on one directory -----

  lemma ReadsAreSound(dir: Dir, order: seq<string>)
    requires Reads(dir, order) && NoneBroken(dir)
    ensures Sound(dir, order)
  {
    forall i | 0 <= i < |order| ensures order[i] in dir {
      var name := order[i];
      assert name in order;
    }
  }

  function EnableJob(svc: int, want: string): (j: Job) { Job(svc, want, false, true, map[]) }
  function DisableJob(svc: int, want: string): (j: Job) { Job(svc, want, true, false, map[]) }
  function QueryJob(svc: int, want: string): (j: Job) { Job(svc, want, false, false, map[]) }

  /** Disabling removes every link to the service and nothing else, exactly if no dangling link is stale. */
  lemma DisableExact(svc: int, want: string, dir: Dir, order: seq<string>, garbage: int)
    requires Reads(dir, order) && NoneBroken(dir)
    ensures var (dir', res) := ManipRl(DisableJob(svc, want), dir, order, garbage, None);
      && (dir' == dir - Targets(dir, svc) <==> NoneStale(dir, order, garbage, svc))
      && Targets(dir', svc) == {}
      && (NoneStale(dir, order, garbage, svc) ==> res == if Targets(dir, svc) == {} then 0 else 1)
  {
    var j := DisableJob(svc, want);
    ReadsAreSound(dir, order);
    WalkExact(j, Scan(dir, garbage, false, 0, false), order);
    assert Removed(j, dir, garbage, order) - {} == Removed(j, dir, garbage, order);
    ClaimedIsTargets(dir, order, garbage, svc);
    ClaimedAreRead(dir, garbage, svc, order);
    hide Walk, Claimed, LastSeen, NoneStale;
    var c := Claimed(dir, garbage, svc, order);
    assert (dir - c).Keys == dir.Keys - c && (dir - Targets(dir, svc)).Keys == dir.Keys - Targets(dir, svc);
    assert c == dir.Keys - (dir.Keys - c);
    assert Targets(dir, svc) == dir.Keys - (dir.Keys - Targets(dir, svc));
  }

  /**
   Enabling leaves the wanted link as the only link to the service exactly if no other file
   has its name and it is not itself stale; it removes the other links to the service and the
   other stale links, and touches nothing else.
   */
  lemma EnableExact(svc: int, want: string, dir: Dir, order: seq<string>, garbage: int)
    requires Reads(dir, order) && NoneBroken(dir)
    ensures var (dir', res) := ManipRl(EnableJob(svc, want), dir, order, garbage, None);
      var stale := StaleNames(dir, order, garbage, svc);
      && (Targets(dir', svc) == {want} <==> !(want in dir && dir[want].NotALink?) && want !in stale)
      && (want in stale ==> Targets(dir', svc) == {})
      && (forall name :: name != want ==>
            (name in dir' <==> name in dir && name !in Targets(dir, svc) && name !in stale))
      && (forall name :: name != want && name in dir' ==> dir'[name] == dir[name])
      && (res == if want in Targets(dir, svc) || want in stale then 1 else 0)
  {
    var j := EnableJob(svc, want);
    ReadsAreSound(dir, order);
    WalkExact(j, Scan(dir, garbage, false, 0, false), order);
    assert Removed(j, dir, garbage, order) - {} == Removed(j, dir, garbage, order);
    ClaimedExactly(dir, order, garbage, svc);
    hide Walk, Claimed, LastSeen, StaleNames;
    var stale := StaleNames(dir, order, garbage, svc);
    var c := Targets(dir, svc) + stale;
    var gone := (c - {want}) + (if want in dir && IsLink(dir[want]) && want !in c then {want} else {});
    assert Removed(j, dir, garbage, order) == gone;
    EnabledTargets(svc, want, dir, stale, gone);
  }

  /** What is left of the links to the service once the loop has removed what it should not keep. */
  lemma EnabledTargets(svc: int, want: string, dir: Dir, stale: set<string>, gone: set<string>)
    requires NoneBroken(dir) && forall name :: name in stale ==> name in dir && dir[name].Dangling?
    requires var c := Targets(dir, svc) + stale;
      gone == (c - {want}) + (if want in dir && IsLink(dir[want]) && want !in c then {want} else {})
    ensures var left := dir - gone;
      && Targets(left, svc) == (if want in Targets(dir, svc) then {want} else {})
      && (want in left <==> want in dir && (want in Targets(dir, svc) || want in stale || dir[want].NotALink?))
      && (want !in left ==> Targets(left[want := Link(svc)], svc) == {want})
  {
  }

  /** Asking tells whether a link leads to the service, unless there is none and a stale link is taken for one. */
  lemma QueryExact(svc: int, want: string, dir: Dir, order: seq<string>, garbage: int)
    requires Reads(dir, order) && NoneBroken(dir)
    ensures var (dir', res) := ManipRl(QueryJob(svc, want), dir, order, garbage, None);
      && dir' == dir
      && (res == 0 <==> Targets(dir, svc) == {} && NoneStale(dir, order, garbage, svc))
      && (res == 0 || res == 1)
      && (res == 1 && Targets(dir, svc) == {} ==> garbage == svc)
  {
    var j := QueryJob(svc, want);
    ReadsAreSound(dir, order);
    WalkExact(j, Scan(dir, garbage, false, 0, false), order);
    assert Removed(j, dir, garbage, order) - {} == Removed(j, dir, garbage, order);
    ClaimedExactly(dir, order, garbage, svc);
    NoStaleNames(dir, order, garbage, svc);
    if Targets(dir, svc) == {} && !NoneStale(dir, order, garbage, svc) {
      StaleWithoutTarget(dir, order, garbage, svc);
    }
    hide Walk, Claimed, LastSeen, NoneStale, StaleNames;
    assert dir - {} == dir;
  }

  // ----- what goes wrong -----

  /** The service has a link of the wrong name, and a dangling link has the right one. */
  function Confusing(svc: int, want: string, other: string): (dir: Dir) {
    map[other := Link(svc), want := Dangling]
  }

  /** Enabling removes the good link, takes the dangling one for ours, makes none, and reports a link. */
  lemma EnableLosesLink(svc: int, want: string, other: string, garbage: int)
    requires want != other
    ensures var dir := Confusing(svc, want, other);
      && Reads(dir, [other, want]) && NoneBroken(dir)
      && ManipRl(EnableJob(svc, want), dir, [other, want], garbage, None) == (map[want := Dangling], 1)
  {
    var dir, j := Confusing(svc, want, other), EnableJob(svc, want);
    WalkTwo(j, Scan(dir, garbage, false, 0, false), other, want);
    assert dir - {other} == map[want := Dangling];
  }

  /** Disabling removes a dangling link that has nothing to do with the service. */
  lemma DisableRemovesDangling(svc: int, want: string, other: string, garbage: int)
    requires want != other
    ensures var dir := Confusing(svc, other, want);
      && Reads(dir, [want, other]) && NoneBroken(dir)
      && ManipRl(DisableJob(svc, want), dir, [want, other], garbage, None) == (map[], 1)
  {
    var dir, j := Confusing(svc, other, want), DisableJob(svc, want);
    WalkTwo(j, Scan(dir, garbage, false, 0, false), want, other);
    assert dir - {want} - {other} == map[];
  }

  /** Enabling does nothing about a file that has the wanted name, and reports no error. */
  lemma EnableIsBlocked(svc: int, want: string, garbage: int)
    ensures var dir: Dir := map[want := NotALink];
      && Reads(dir, [want]) && NoneBroken(dir)
      && ManipRl(EnableJob(svc, want), dir, [want], garbage, None) == (dir, 0)
  {
    var dir: Dir := map[want := NotALink];
    var s := Scan(dir, garbage, false, 0, false);
    assert Walk(EnableJob(svc, want), s, [want]) == Walk(EnableJob(svc, want), s, []);
  }

  /** Asking finds a link where there is none, if the stat buffer happens to describe the service. */
  lemma QueryFindsNoLink(svc: int, want: string)
    ensures var dir: Dir := map[want := Dangling];
      && Reads(dir, [want]) && NoneBroken(dir) && Targets(dir, svc) == {}
      && ManipRl(QueryJob(svc, want), dir, [want], svc, None) == (dir, 1)
  {
    var dir: Dir := map[want := Dangling];
    var s := Scan(dir, svc, false, 0, false);
    assert Walk(QueryJob(svc, want), s, [want]) == Walk(QueryJob(svc, want), s.(found := true), []);
  }

  lemma WalkTwo(j: Job, s: Scan, a: string, b: string)
    requires !s.stopped && !Visit(j, s, a).stopped
    ensures Walk(j, s, [a, b]) == Visit(j, Visit(j, s, a), b)
  {
    hide Visit;
    var t := Visit(j, s, a);
    var u := Visit(j, t, b);
    assert [a, b][1..] == [b] && [b][1..] == [];
    assert Walk(j, u, []) == u;
    assert Walk(j, t, [b]) == u;
  }

  // ----- directories in order -----

  /** Without dangling links nothing is ever stale, whatever the stat buffer held. */
  lemma ResolvableIsNotStale(dir: Dir, order: seq<string>, garbage: int, svc: int)
    requires forall name :: name in dir ==> !dir[name].Dangling?
    ensures NoneStale(dir, order, garbage, svc)
  {
  }

  /** A call that reports an error has made no link. */
  lemma {:induction false} WalkOnlyRemoves(j: Job, s: Scan, order: seq<string>)
    ensures Walk(j, s, order).dir.Keys <= s.dir.Keys
    ensures forall name :: name in Walk(j, s, order).dir ==> Walk(j, s, order).dir[name] == s.dir[name]
    decreases |order|
  {
    if order != [] && !s.stopped {
      var t := Visit(j, s, order[0]);
      assert t.dir.Keys <= s.dir.Keys && forall name :: name in t.dir ==> t.dir[name] == s.dir[name];
      hide Visit;
      WalkOnlyRemoves(j, t, order[1..]);
    }
  }

  lemma ErrorMakesNoLink(j: Job, dir: Dir, order: seq<string>, garbage: int, symlinkErr: Option<Errno>)
    ensures var (dir', res) := ManipRl(j, dir, order, garbage, symlinkErr);
      res < 0 ==> dir'.Keys <= dir.Keys && forall name :: name in dir' ==> dir'[name] == dir[name]
  {
    WalkOnlyRemoves(j, Scan(dir, garbage, false, 0, false), order);
    hide Walk;
  }

  // ----- the seven run levels -----

  const RUNLEVELS: nat := 7

  datatype Command = Enable | Disable | Query

  function JobFor(cmd: Command, svc: int, want: string): (j: Job) {
    match cmd
    case Enable => EnableJob(svc, want)
    case Disable => DisableJob(svc, want)
    case Query => QueryJob(svc, want)
  }

  /** The link name: a start link in run levels 2 to 5, a stop link in the others. */
  function WantedName(rl: nat, name: string): (s: string) {
    (if 2 <= rl <= 5 then "S20" else "K80") + name
  }

  /** How a directory is read: in which order, and with what in the stat buffer. */
  datatype Reading = Reading(order: seq<string>, garbage: int)

  /** service_manip over the first `k` run levels, without failing system calls. */
  function Manip(cmd: Command, svc: int, name: string, dirs: seq<Dir>, readings: seq<Reading>, k: nat)
    : (r: (seq<Dir>, int))
    requires k <= |dirs| == |readings|
    ensures |r.0| == k
  {
    if k == 0 then ([], 0)
    else
      var (before, ret) := Manip(cmd, svc, name, dirs, readings, k - 1);
      var (dir, res) :=
        ManipRl(JobFor(cmd, svc, WantedName(k - 1, name)), dirs[k - 1],
                readings[k - 1].order, readings[k - 1].garbage, None);
      (before + [dir], if res < 0 then res else if ret >= 0 then ret + res else ret)
  }

  /** A directory in which every link resolves. */
  ghost predicate Resolves(dir: Dir) {
    forall n :: n in dir ==> dir[n].Link? || dir[n].NotALink?
  }

  /** Also, nothing but a link stands under the wanted name. */
  ghost predicate Clean(dir: Dir, want: string) {
    Resolves(dir) && !(want in dir && dir[want].NotALink?)
  }

  ghost predicate Readable(dirs: seq<Dir>, readings: seq<Reading>) {
    |dirs| == |readings| && forall rl :: 0 <= rl < |dirs| ==> Reads(dirs[rl], readings[rl].order) && Resolves(dirs[rl])
  }

  ghost predicate Ready(name: string, dirs: seq<Dir>, readings: seq<Reading>) {
    Readable(dirs, readings) && forall rl :: 0 <= rl < |dirs| ==> Clean(dirs[rl], WantedName(rl, name))
  }

  ghost predicate Enabled(svc: int, name: string, dirs: seq<Dir>) {
    forall rl :: 0 <= rl < |dirs| ==> Targets(dirs[rl], svc) == {WantedName(rl, name)}
  }

  ghost predicate Disabled(svc: int, dirs: seq<Dir>) {
    forall rl :: 0 <= rl < |dirs| ==> Targets(dirs[rl], svc) == {}
  }

  lemma {:induction false} ManipAt(
    cmd: Command, svc: int, name: string, dirs: seq<Dir>, readings: seq<Reading>, k: nat, rl: nat)
    requires rl < k <= |dirs| == |readings|
    ensures Manip(cmd, svc, name, dirs, readings, k).0[rl]
         == ManipRl(JobFor(cmd, svc, WantedName(rl, name)), dirs[rl], readings[rl].order, readings[rl].garbage, None).0
    decreases k
  {
    if rl < k - 1 {
      ManipAt(cmd, svc, name, dirs, readings, k - 1, rl);
    }
    hide ManipRl;
  }

  lemma ResolvesIsFine(dir: Dir, r: Reading, svc: int)
    requires Resolves(dir)
    ensures NoneBroken(dir) && NoneStale(dir, r.order, r.garbage, svc)
  {
    ResolvableIsNotStale(dir, r.order, r.garbage, svc);
  }

  /** After enabling, each run level has exactly one link to the service, with the right name; the rest is as it was. */
  lemma EnableAll(svc: int, name: string, dirs: seq<Dir>, readings: seq<Reading>)
    requires Ready(name, dirs, readings)
    ensures var after := Manip(Enable, svc, name, dirs, readings, |dirs|).0;
      && Enabled(svc, name, after)
      && (forall rl :: 0 <= rl < |dirs| ==> Clean(after[rl], WantedName(rl, name)))
      && (forall rl, n :: 0 <= rl < |dirs| && n != WantedName(rl, name) && n !in Targets(dirs[rl], svc) ==>
            (n in after[rl] <==> n in dirs[rl]) && (n in dirs[rl] ==> after[rl][n] == dirs[rl][n]))
  {
    var after := Manip(Enable, svc, name, dirs, readings, |dirs|).0;
    forall rl | 0 <= rl < |dirs|
      ensures Targets(after[rl], svc) == {WantedName(rl, name)} && Clean(after[rl], WantedName(rl, name))
      ensures forall n :: n != WantedName(rl, name) && n !in Targets(dirs[rl], svc) ==>
                (n in after[rl] <==> n in dirs[rl]) && (n in dirs[rl] ==> after[rl][n] == dirs[rl][n])
    {
      var want := WantedName(rl, name);
      assert Clean(dirs[rl], want);
      ManipAt(Enable, svc, name, dirs, readings, |dirs|, rl);
      ResolvesIsFine(dirs[rl], readings[rl], svc);
      hide ManipRl, NoneStale, WantedName, Manip;
      EnableExact(svc, want, dirs[rl], readings[rl].order, readings[rl].garbage);
      assert want in Targets(after[rl], svc);
    }
  }

  /** After disabling, no link to the service is left, and nothing else has changed. */
  lemma DisableAll(svc: int, name: string, dirs: seq<Dir>, readings: seq<Reading>)
    requires Readable(dirs, readings)
    ensures var after := Manip(Disable, svc, name, dirs, readings, |dirs|).0;
      && Disabled(svc, after)
      && (forall rl :: 0 <= rl < |dirs| ==> after[rl] == dirs[rl] - Targets(dirs[rl], svc))
  {
    var after := Manip(Disable, svc, name, dirs, readings, |dirs|).0;
    forall rl | 0 <= rl < |dirs|
      ensures Targets(after[rl], svc) == {} && after[rl] == dirs[rl] - Targets(dirs[rl], svc)
    {
      var want := WantedName(rl, name);
      ManipAt(Disable, svc, name, dirs, readings, |dirs|, rl);
      ResolvesIsFine(dirs[rl], readings[rl], svc);
      DisableExact(svc, want, dirs[rl], readings[rl].order, readings[rl].garbage);
      hide ManipRl, NoneStale, Manip;
    }
  }

  /** Asking counts the run levels with a link, and changes nothing. */
  lemma {:induction false} QueryCounts(svc: int, name: string, dirs: seq<Dir>, readings: seq<Reading>, k: nat)
    requires Readable(dirs, readings) && k <= |dirs|
    ensures Manip(Query, svc, name, dirs, readings, k).0 == dirs[..k]
    ensures Enabled(svc, name, dirs) ==> Manip(Query, svc, name, dirs, readings, k).1 == k
    ensures Disabled(svc, dirs) ==> Manip(Query, svc, name, dirs, readings, k).1 == 0
    decreases k
  {
    if k > 0 {
      var rl := k - 1;
      QueryCounts(svc, name, dirs, readings, rl);
      ResolvesIsFine(dirs[rl], readings[rl], svc);
      QueryExact(svc, WantedName(rl, name), dirs[rl], readings[rl].order, readings[rl].garbage);
      hide ManipRl, NoneStale, WantedName;
      assert dirs[..k] == dirs[..rl] + [dirs[rl]];
    }
  }

  /** Enabling what is enabled changes nothing and finds a link in every run level. */
  lemma {:induction false} EnableIsIdempotent(svc: int, name: string, dirs: seq<Dir>, readings: seq<Reading>, k: nat)
    requires Ready(name, dirs, readings) && Enabled(svc, name, dirs) && k <= |dirs|
    ensures Manip(Enable, svc, name, dirs, readings, k) == (dirs[..k], k)
    decreases k
  {
    if k > 0 {
      var rl := k - 1;
      EnableIsIdempotent(svc, name, dirs, readings, rl);
      var want := WantedName(rl, name);
      assert Reads(dirs[rl], readings[rl].order) && Clean(dirs[rl], want) && Targets(dirs[rl], svc) == {want};
      hide ManipRl, WantedName, Reads, Clean, Targets, Ready, Enabled;
      OneEnableIsIdempotent(svc, want, dirs[rl], readings[rl]);
      assert dirs[..k] == dirs[..rl] + [dirs[rl]];
    }
  }

  lemma OneEnableIsIdempotent(svc: int, want: string, dir: Dir, r: Reading)
    requires Reads(dir, r.order) && Clean(dir, want) && Targets(dir, svc) == {want}
    ensures ManipRl(EnableJob(svc, want), dir, r.order, r.garbage, None) == (dir, 1)
  {
    ResolvesIsFine(dir, r, svc);
    EnableExact(svc, want, dir, r.order, r.garbage);
    hide ManipRl, NoneStale;
    var dir' := ManipRl(EnableJob(svc, want), dir, r.order, r.garbage, None).0;
    assert want in Targets(dir, svc) && want in Targets(dir', svc);
    assert dir' == dir;
  }

  /** The life of a service: enabled in all seven run levels, found there, disabled, and no longer found. */
  lemma EnableQueryDisable(svc: int, name: string, dirs: seq<Dir>, r1: seq<Reading>, r2: seq<Reading>, r3: seq<Reading>)
    requires |dirs| == RUNLEVELS && Ready(name, dirs, r1)
    requires Readable(Manip(Enable, svc, name, dirs, r1, RUNLEVELS).0, r2)
    requires Readable(Manip(Disable, svc, name, Manip(Enable, svc, name, dirs, r1, RUNLEVELS).0, r2, RUNLEVELS).0, r3)
    ensures var on := Manip(Enable, svc, name, dirs, r1, RUNLEVELS).0;
      var off := Manip(Disable, svc, name, on, r2, RUNLEVELS).0;
      && Manip(Query, svc, name, on, r2, RUNLEVELS).1 == 7
      && Manip(Query, svc, name, off, r3, RUNLEVELS).1 == 0
  {
    hide Manip;
    EnableAll(svc, name, dirs, r1);
    var on := Manip(Enable, svc, name, dirs, r1, RUNLEVELS).0;
    QueryCounts(svc, name, on, r2, RUNLEVELS);
    DisableAll(svc, name, on, r2);
    QueryCounts(svc, name, Manip(Disable, svc, name, on, r2, RUNLEVELS).0, r3, RUNLEVELS);
  }

  // ----- the code -----

  /** An rc directory on disk. */
  class RcDirectory {
    var entries: Dir

    method TryUnlink(name: string, fails: map<string, Errno>) returns (err: int)
      modifies this
      ensures name in fails ==> err == -(fails[name] as int) && entries == old(entries)
      ensures name !in fails ==> err == 0 && entries == old(entries) - {name}
    {
      if name in fails {
        var e: int := fails[name];
        return -e;
      }
      entries := entries - {name};
      err := 0;
    }

    /** service_manip_rl, once the directory is open. */
    method Manipulate(j: Job, order: seq<string>, garbage: int, symlinkErr: Option<Errno>) returns (res: int)
      modifies this
      ensures (entries, res) == ManipRl(j, old(entries), order, garbage, symlinkErr)
    {
      hide Walk;
      var ret, found, sb, stopped := 0, false, garbage, false;
      var i := 0;
      ghost var s0 := Scan(entries, garbage, false, 0, false);
      WalkStart(j, s0, order);
      while i < |order| && !stopped
        invariant 0 <= i <= |order|
        invariant Walk(j, s0, order) == Walk(j, Scan(entries, sb, found, ret, stopped), order[i..])
      {
        WalkStep(j, Scan(entries, sb, found, ret, stopped), order[i..]);
        assert order[i..][0] == order[i] && order[i..][1..] == order[i + 1..];
        var name := order[i];
        i := i + 1;
        if name !in entries || entries[name].NotALink? {
          continue;
        }
        if entries[name].Broken? {
          var e: int := entries[name].errno;
          ret, stopped := -e, true;
          continue;
        }
        if entries[name].Link? {
          sb := entries[name].inode;
        }
        var err := 0;
        if sb == j.svc {
          if j.add && name != j.want {
            err := TryUnlink(name, j.fails);
          } else {
            found := true;
            if j.del && !j.add {
              err := TryUnlink(name, j.fails);
            }
          }
        } else if j.add && name == j.want {
          err := TryUnlink(name, j.fails);
        }
        if err != 0 {
          ret := err;
        }
      }
      WalkEnd(j, Scan(entries, sb, found, ret, stopped), order[i..]);
      if j.add && !found && ret == 0 {
        if j.want !in entries {
          if symlinkErr.Some? {
            var e: int := symlinkErr.value;
            ret := -e;
          } else {
            entries := entries[j.want := Link(j.svc)];
          }
        }
      }
      res := if ret < 0 then ret else if found then 1 else 0;
    }
  }

  lemma WalkStart(j: Job, s: Scan, order: seq<string>)
    ensures Walk(j, s, order) == Walk(j, s, order[0..])
  {
    assert order[0..] == order;
  }

  lemma WalkStep(j: Job, s: Scan, order: seq<string>)
    requires order != [] && !s.stopped
    ensures Walk(j, s, order) == Walk(j, Visit(j, s, order[0]), order[1..])
  {
  }

  lemma WalkEnd(j: Job, s: Scan, order: seq<string>)
    requires order == [] || s.stopped
    ensures Walk(j, s, order) == s
  {
  }
}
