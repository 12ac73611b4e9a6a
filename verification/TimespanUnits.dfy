/** The unit table of timespan.c, and what its wrap-around costs. */
module TimespanUnits {
  import opened Basics
  import opened Timespan
  import opened TimespanProofs

  const UNITS: seq<Unit> := [
    Unit("usec", TS_USEC), Unit("us", TS_USEC), Unit("msec", TS_MSEC),
    Unit("ms", TS_MSEC), Unit("seconds", TS_SEC), Unit("second", TS_SEC),
    Unit("sec", TS_SEC), Unit("s", TS_SEC), Unit("minutes", TS_MIN),
    Unit("minute", TS_MIN), Unit("min", TS_MIN), Unit("m", TS_MIN),
    Unit("hours", TS_HR), Unit("hour", TS_HR), Unit("hr", TS_HR),
    Unit("h", TS_HR), Unit("days", TS_DAY), Unit("day", TS_DAY),
    Unit("d", TS_DAY), Unit("weeks", TS_WEEK), Unit("week", TS_WEEK),
    Unit("w", TS_WEEK), Unit("months", TS_MONTH), Unit("month", TS_MONTH),
    Unit("M", TS_MONTH), Unit("years", TS_YEAR), Unit("year", TS_YEAR),
    Unit("y", TS_YEAR)]

  /** Where a unit name stands in the table. */
  function Position(name: string): (k: int) {
    match |name|
    case 1 => OneLetter(name[0])
    case 2 => if name[0] == 'u' then 1 else if name[0] == 'm' then 3 else 14
    case 3 => if name[0] == 's' then 6 else if name[0] == 'm' then 10 else 17
    case 4 => FourLetters(name[0])
    case 5 => if name[0] == 'h' then 12 else if name[0] == 'w' then 19 else if name[0] == 'm' then 23 else 25
    case 6 => if name[0] == 's' then 5 else if name[1] == 'i' then 9 else 22
    case 7 => if name[0] == 's' then 4 else 8
    case _ => -1
  }

  function OneLetter(c: char): (k: int) {
    match c
    case 's' => 7
    case 'm' => 11
    case 'h' => 15
    case 'd' => 18
    case 'w' => 21
    case 'M' => 24
    case _ => 27
  }

  function FourLetters(c: char): (k: int) {
    match c
    case 'u' => 0
    case 'm' => 2
    case 'h' => 13
    case 'd' => 16
    case 'w' => 20
    case _ => 26
  }

  lemma Rows0(k: nat)
    requires 0 <= k < 7
    ensures k < |UNITS| && Position(UNITS[k].name) == k && GoodRow(UNITS[k])
  {
    if k == 0 { assert UNITS[k].name == "usec"; }
    else if k == 1 { assert UNITS[k].name == "us"; }
    else if k == 2 { assert UNITS[k].name == "msec"; }
    else if k == 3 { assert UNITS[k].name == "ms"; }
    else if k == 4 { assert UNITS[k].name == "seconds"; }
    else if k == 5 { assert UNITS[k].name == "second"; }
    else if k == 6 { assert UNITS[k].name == "sec"; }
  }

  lemma Rows1(k: nat)
    requires 7 <= k < 14
    ensures k < |UNITS| && Position(UNITS[k].name) == k && GoodRow(UNITS[k])
  {
    if k == 7 { assert UNITS[k].name == "s"; }
    else if k == 8 { assert UNITS[k].name == "minutes"; }
    else if k == 9 { assert UNITS[k].name == "minute"; }
    else if k == 10 { assert UNITS[k].name == "min"; }
    else if k == 11 { assert UNITS[k].name == "m"; }
    else if k == 12 { assert UNITS[k].name == "hours"; }
    else if k == 13 { assert UNITS[k].name == "hour"; }
  }

  lemma Rows2(k: nat)
    requires 14 <= k < 21
    ensures k < |UNITS| && Position(UNITS[k].name) == k && GoodRow(UNITS[k])
  {
    if k == 14 { assert UNITS[k].name == "hr"; }
    else if k == 15 { assert UNITS[k].name == "h"; }
    else if k == 16 { assert UNITS[k].name == "days"; }
    else if k == 17 { assert UNITS[k].name == "day"; }
    else if k == 18 { assert UNITS[k].name == "d"; }
    else if k == 19 { assert UNITS[k].name == "weeks"; }
    else if k == 20 { assert UNITS[k].name == "week"; }
  }

  lemma Rows3(k: nat)
    requires 21 <= k < 28
    ensures k < |UNITS| && Position(UNITS[k].name) == k && GoodRow(UNITS[k])
  {
    if k == 21 { assert UNITS[k].name == "w"; }
    else if k == 22 { assert UNITS[k].name == "months"; }
    else if k == 23 { assert UNITS[k].name == "month"; }
    else if k == 24 { assert UNITS[k].name == "M"; }
    else if k == 25 { assert UNITS[k].name == "years"; }
    else if k == 26 { assert UNITS[k].name == "year"; }
    else if k == 27 { assert UNITS[k].name == "y"; }
  }

  ghost predicate GoodRow(u: Unit) {
    u.name != [] && All(u.name, Alpha) && 1 <= u.value < TS_INFINITY
  }

  lemma UnitsAreGood()
    ensures GoodUnits(UNITS)
  {
    forall k | 0 <= k < |UNITS| ensures Position(UNITS[k].name) == k && GoodRow(UNITS[k]) {
      if k < 7 { Rows0(k); } else if k < 14 { Rows1(k); } else if k < 21 { Rows2(k); } else { Rows3(k); }
    }
  }

  lemma UnitNamesAreGood()
    ensures GoodNames(NamesOf(UNITS))
  {
    hide NamesOf;
    UnitsAreGood();
    GoodUnitsNames(UNITS);
  }

  /** With the units of the program: what a written time span is read as. */
  lemma WrittenMeaning(lead: string, ts: seq<Term>, stale: bool)
    requires AreTerms(NamesOf(UNITS), ts) && ts != [] && All(lead, Blank)
    ensures var qs := Quantities(NamesOf(UNITS), ts);
      FromStr(NamesOf(UNITS), lead + Render(ts), stale) == Meaning(qs)
      <==> NoProductWraps(qs) || AnyOutOfRange(qs, stale) || WrappedSum(qs) >= TS_INVALID
  {
    hide *;
    UnitNamesAreGood();
    TimespanMeaning(NamesOf(UNITS), lead, ts, stale);
  }

  /** The printed form with the units of the program. */
  ghost function Written(ts: nat): (s: string)
    requires ts < TS_INVALID
  {
    UnitsAreGood();
    ToStr(UNITS, ts)
  }

  /** With the units of the program: every time span but TS_INVALID is read back from what is printed for it. */
  lemma WrittenRoundTrip(ts: nat, stale: bool)
    requires ts < TS_INVALID
    ensures FromStr(NamesOf(UNITS), Written(ts), stale) == ts
  {
    hide FromStr, NamesOf, ToStr, GoodUnits;
    UnitsAreGood();
    TimespanRoundTrip(UNITS, ts, stale);
  }

  /** A single blank after the word is enough to make it unreadable. */
  lemma InfinityWithBlank()
    ensures FromStr(NamesOf(UNITS), "infinity", false) == TS_INFINITY
    ensures FromStr(NamesOf(UNITS), "infinity ", false) == TS_INVALID
  {
    hide FromStr, NamesOf;
    InfinityExactly(NamesOf(UNITS), "", "", false);
    InfinityExactly(NamesOf(UNITS), "", " ", false);
    assert "" + ("infinity" + "") == "infinity";
    assert "" + ("infinity" + " ") == "infinity ";
  }

  /** "18446744073710s" is more than 2^64 microseconds, yet it is read as less than half a second. */
  lemma WrapCounterexample()
    ensures FromStr(NamesOf(UNITS), Decimal(18446744073710) + "s", false) == 448384
    ensures Meaning([Quantity(18446744073710, TS_SEC)]) == TS_INVALID
  {
    UnitsAreGood();
    assert UNITS[7] == Unit("s", TS_SEC);
    FromStrOfOneTerm(UNITS, 18446744073710, 7);
    TotalOfOne(Quantity(18446744073710, TS_SEC));
    WrapIsMod(18446744073710 * TS_SEC);
  }
}
