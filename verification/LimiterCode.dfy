/** The start limiter as the monitor keeps it: an array of start times and a cursor into it. */
module LimiterCode {
  import opened Limiter
  import Timespan

  class StartLimiter {
    const interval: nat
    const enabled: bool
    const startTimes: array<nat>
    var cursor: nat

    ghost predicate Valid()
      reads this, startTimes
    {
      enabled ==> cursor < startTimes.Length && forall i :: 0 <= i < startTimes.Length ==> startTimes[i] < Timespan.U64
    }

    ghost function Model(): (l: Limiter)
      reads this, startTimes
    {
      if enabled then On(startTimes[..], cursor) else Off
    }

    constructor (interval: nat, burst: nat, clock: nat)
      requires clock < Timespan.U64
      ensures Valid() && fresh(startTimes) && this.interval == interval
      ensures Model() == Start(interval, burst, clock)
    {
      hide Advance;
      this.interval := interval;
      var on := interval > 0 && burst > 1;
      this.enabled := on;
      var size := if !on then 0 else if burst > MAX_BURST then MAX_BURST else burst;
      var times := new nat[size](i => 0);
      if on {
        times[0] := clock;
      }
      this.startTimes := times;
      this.cursor := if on then Advance(0, size) else 0;
      new;
      if on {
        assert startTimes[..] == seq(size, i => 0)[0 := clock];
      }
    }

    /** Records the next start, unless it would come too soon. */
    method Admit(next: nat) returns (ok: bool)
      requires Valid() && next < Timespan.U64
      modifies this`cursor, startTimes
      ensures Valid()
      ensures ok == !(enabled && Refuses(old(Model()), interval, next))
      ensures Model() == if enabled && ok then Record(old(Model()), next) else old(Model())
    {
      hide Advance;
      if !enabled {
        return true;
      }
      var before := startTimes[cursor];
      var delta := if next >= before then next - before else next + Timespan.U64 - before;
      if delta < interval {
        return false;
      }
      ghost var ring := startTimes[..];
      startTimes[cursor] := next;
      assert startTimes[..] == ring[cursor := next];
      cursor := Advance(cursor, startTimes.Length);
      ok := true;
    }
  }
}
