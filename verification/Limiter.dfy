/**
 The start limiter of the service monitor: a ring of the most recent start times,
 zero where there was none yet, with a cursor on the oldest one.
 */
module Limiter {
  import Timespan

  const MAX_BURST := 100

  datatype Limiter = Off | On(ring: seq<nat>, cursor: nat)

  /** Unsigned 64-bit subtraction. */
  function Sub64(a: nat, b: nat): (r: nat)
    requires a < Timespan.U64 && b < Timespan.U64
    ensures r < Timespan.U64 && (b + r == a || b + r == a + Timespan.U64)
  {
    if a >= b then a - b else a + Timespan.U64 - b
  }

  function Size(burst: nat): (b: nat) {
    if burst > MAX_BURST then MAX_BURST else burst
  }

  /** The limiter is used only if there is an interval and more than one start is allowed. */
  predicate Enabled(interval: nat, burst: nat) {
    interval > 0 && burst > 1
  }

  /** The ring after the monitor's own start. */
  function Start(interval: nat, burst: nat, clock: nat): (l: Limiter) {
    if !Enabled(interval, burst) then Off
    else On(seq(Size(burst), i => 0)[0 := Timespan.Wrap64(clock)], 1)
  }

  ghost predicate Valid(l: Limiter) {
    l.On? ==> l.cursor < |l.ring| && forall i :: 0 <= i < |l.ring| ==> l.ring[i] < Timespan.U64
  }

  /** Whether a start at `next` would come too soon. */
  predicate Refuses(l: Limiter, interval: nat, next: nat)
    requires l.On? && Valid(l) && next < Timespan.U64
  {
    Sub64(next, l.ring[l.cursor]) < interval
  }

  /** The next place in a ring of size `b`. */
  function Advance(cursor: nat, b: nat): (r: nat)
    requires cursor < b
    ensures r == if cursor + 1 < b then cursor + 1 else 0
  {
    (cursor + 1) % b
  }

  /** Writes a start into the ring. */
  function Record(l: Limiter, next: nat): (r: Limiter)
    requires l.On? && Valid(l) && next < Timespan.U64
    ensures Valid(r)
  {
    On(l.ring[l.cursor := next], Advance(l.cursor, |l.ring|))
  }

  // ----- what the ring holds -----

  /** The remainder of the division of `n` by the size of the ring. */
  function Slot(n: nat, b: nat): (r: nat)
    requires b > 0
    ensures r < b
  {
    if n < b then n else Slot(n - b, b)
  }

  /** The ring holds the last starts of `rs`, each at its index modulo the size, and zeros elsewhere. */
  ghost predicate Holds(l: Limiter, rs: seq<nat>) {
    && l.On? && Valid(l) && |l.ring| > 0
    && l.cursor == Slot(|rs|, |l.ring|)
    && (forall j :: 0 <= j < |rs| && |rs| - |l.ring| <= j ==> l.ring[Slot(j, |l.ring|)] == rs[j])
    && (forall i :: |rs| <= i < |l.ring| ==> l.ring[i] == 0)
  }

  lemma {:induction false} SlotsDiffer(j: nat, n: nat, b: nat)
    requires j < n < j + b
    ensures Slot(j, b) != Slot(n, b)
  {
    if j >= b {
      SlotsDiffer(j - b, n - b, b);
    }
  }

  lemma {:induction false} SlotAfter(n: nat, b: nat)
    requires b > 0
    ensures Slot(n + 1, b) == if Slot(n, b) + 1 < b then Slot(n, b) + 1 else 0
  {
    if n >= b {
      SlotAfter(n - b, b);
    }
  }

  lemma SlotWhileFilling(n: nat, b: nat)
    requires b > 0
    ensures n < b ==> Slot(n, b) == n
  {
  }

  lemma StartHolds(interval: nat, burst: nat, clock: nat)
    requires Enabled(interval, burst)
    ensures Holds(Start(interval, burst, clock), [Timespan.Wrap64(clock)])
  {
  }

  /** The value under the cursor is the start that lies as many starts back as the ring is long, or zero. */
  lemma UnderCursor(l: Limiter, rs: seq<nat>)
    requires Holds(l, rs)
    ensures l.ring[l.cursor] == if |rs| >= |l.ring| then rs[|rs| - |l.ring|] else 0
  {
  }

  lemma RecordHolds(l: Limiter, rs: seq<nat>, next: nat)
    requires Holds(l, rs) && next < Timespan.U64
    ensures Holds(Record(l, next), rs + [next])
  {
    hide Advance, Slot;
    var b, n, r := |l.ring|, |rs|, Record(l, next);
    SlotAfter(n, b);
    SlotWhileFilling(n, b);
    forall j | 0 <= j < n + 1 && n + 1 - b <= j ensures r.ring[Slot(j, b)] == (rs + [next])[j] {
      if j < n {
        SlotsDiffer(j, n, b);
      }
    }
  }

  // ----- what is refused -----

  /** As many starts as are allowed already fall less than one interval before `next`. */
  predicate TooMany(rs: seq<nat>, b: nat, interval: nat, next: nat)
    requires forall i :: 0 <= i < |rs| ==> rs[i] <= next
  {
    0 < b <= |rs| && next - rs[|rs| - b] < interval
  }

  /**
   A start is refused exactly when too many came before it, except that the zeros in a ring
   that is not yet full count as starts at the moment the machine booted.
   */
  lemma RefusalIsExact(l: Limiter, rs: seq<nat>, interval: nat, next: nat)
    requires Holds(l, rs) && next < Timespan.U64
    requires forall i :: 0 <= i < |rs| ==> rs[i] <= next
    ensures Refuses(l, interval, next)
       <==> TooMany(rs, |l.ring|, interval, next) || (|rs| < |l.ring| && next < interval)
    ensures (Refuses(l, interval, next) <==> TooMany(rs, |l.ring|, interval, next))
       <==> |rs| >= |l.ring| || next >= interval
  {
    UnderCursor(l, rs);
  }

  /** The first restart of a service, shortly after boot, with five starts allowed in ten seconds. */
  lemma RefusedAfterBoot()
    ensures Refuses(Start(10_000_000, 5, 3_000_000), 10_000_000, 4_000_000)
    ensures !TooMany([3_000_000], 5, 10_000_000, 4_000_000)
  {
    StartHolds(10_000_000, 5, 3_000_000);
    RefusalIsExact(Start(10_000_000, 5, 3_000_000), [3_000_000], 10_000_000, 4_000_000);
  }

  // ----- how many starts fit into an interval -----

  predicate Ascending(rs: seq<nat>) {
    forall i, j :: 0 <= i < j < |rs| ==> rs[i] <= rs[j]
  }

  /** Any `b` starts and the next one span at least an interval. */
  predicate Spaced(rs: seq<nat>, b: nat, interval: nat) {
    forall i, j :: 0 <= i && i + b <= j < |rs| ==> rs[j] - rs[i] >= interval
  }

  lemma AdmittedStaySpaced(l: Limiter, rs: seq<nat>, interval: nat, next: nat)
    requires Holds(l, rs) && next < Timespan.U64
    requires forall i :: 0 <= i < |rs| ==> rs[i] <= next
    requires !Refuses(l, interval, next)
    requires Ascending(rs) && Spaced(rs, |l.ring|, interval)
    ensures Ascending(rs + [next]) && Spaced(rs + [next], |l.ring|, interval)
  {
    UnderCursor(l, rs);
    var b, n := |l.ring|, |rs|;
    forall i, j | 0 <= i && i + b <= j < n + 1 ensures (rs + [next])[j] - (rs + [next])[i] >= interval {
      if j == n && i < n - b {
        assert rs[i] <= rs[n - b];
      }
    }
  }

  /** The starts that fall into an interval beginning at `from`. */
  function Window(rs: seq<nat>, from: nat, interval: nat): (r: set<nat>) {
    set i: nat | i < |rs| && from <= rs[i] < from + interval
  }

  function Range(lo: nat, len: nat): (r: set<nat>)
    ensures |r| == len && forall i: nat :: i in r <==> lo <= i < lo + len
  {
    if len == 0 then {} else Range(lo, len - 1) + {lo + len - 1}
  }

  lemma SubsetIsSmaller(a: set<nat>, b: set<nat>)
    requires a <= b
    ensures |a| <= |b|
  {
    assert b == a + (b - a);
  }

  lemma Smallest(s: set<nat>) returns (m: nat)
    requires s != {}
    ensures m in s && forall x :: x in s ==> m <= x
  {
    m :| m in s;
    if s != {m} {
      var k := Smallest(s - {m});
      assert s == (s - {m}) + {m};
      if k < m { m := k; }
    }
  }

  /** No interval holds more than `b` spaced starts. */
  lemma WindowIsSmall(rs: seq<nat>, b: nat, from: nat, interval: nat)
    requires Spaced(rs, b, interval)
    ensures |Window(rs, from, interval)| <= b
  {
    var w := Window(rs, from, interval);
    if w != {} {
      var m := Smallest(w);
      forall i | i in w ensures i in Range(m, b) {
        assert rs[i] - rs[m] < interval;
      }
      SubsetIsSmaller(w, Range(m, b));
    }
  }
}
