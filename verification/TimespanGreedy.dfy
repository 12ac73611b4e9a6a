/** The printer is greedy: it always uses the largest unit that fits.  The units of the program, as numbers. */
module TimespanGreedy {
  import opened Basics
  import opened Timespan
  import opened TimespanProofs
  import opened TimespanUnits

  /** The table is sorted by value. */
  predicate Rising(units: seq<Unit>) {
    forall i, j :: 0 <= i < j < |units| ==> units[i].value <= units[j].value
  }

  lemma {:induction false} DownSkips(units: seq<Unit>, ts: nat, k: nat)
    requires k <= |units|
    ensures forall l :: Down(units, ts, k) < l <= k && l < |units| ==> units[l].value > ts
  {
    if k > 0 && ValueAt(units, k) > ts {
      DownSkips(units, ts, k - 1);
    }
  }

  /** What is left to print from one term on. */
  function LeftFrom(units: seq<Unit>, ps: seq<Term>, i: nat): (n: nat)
    requires i <= |ps| && AreTerms(NamesOf(units), ps)
  {
    Sum(Quantities(NamesOf(units), ps[i..]))
  }

  /** The term at `i` uses row `j`; what is left fits into no row after it. */
  ghost predicate UsesRow(units: seq<Unit>, ps: seq<Term>, i: nat, j: nat)
    requires i < |ps| && AreTerms(NamesOf(units), ps)
  {
    && j < |units| && units[j].name == ps[i].unit && units[j].value <= LeftFrom(units, ps, i)
    && forall l :: j < l < |units| ==> LeftFrom(units, ps, i) < units[l].value
  }

  /** The first term uses the last row that fits; what remains is smaller than that row and all later ones. */
  lemma FirstTerm(units: seq<Unit>, ts: nat, k: nat)
    requires GoodUnits(units) && Rising(units) && k <= |units| && 0 < ts < TS_INVALID
    requires forall l :: k <= l < |units| ==> ts < units[l].value
    ensures var j, all := Down(units, ts, k), Printed(units, ts, k);
      && j < |units| && 0 < units[j].value <= ts && ts % units[j].value < ts
      && all != [] && all[0].unit == units[j].name && all[1..] == Printed(units, ts % units[j].value, j)
      && (forall l :: j < l < |units| ==> ts < units[l].value)
      && (forall l :: j <= l < |units| ==> ts % units[j].value < units[l].value)
  {
    DownSkips(units, ts, k);
    var j := Down(units, ts, k);
    DivisionFacts(ts, units[j].value);
    assert forall l :: j < l < |units| ==> units[j].value <= units[l].value;
  }

  lemma {:induction false} RowsUsed(units: seq<Unit>, ts: nat, k: nat) returns (at: seq<nat>)
    requires GoodUnits(units) && Rising(units) && k <= |units| && ts < TS_INVALID
    requires forall l :: k <= l < |units| ==> ts < units[l].value
    ensures AreTerms(NamesOf(units), Printed(units, ts, k)) && |at| == |Printed(units, ts, k)|
    ensures forall i :: 0 <= i < |at| ==> UsesRow(units, Printed(units, ts, k), i, at[i])
    decreases ts
  {
    if ts == 0 {
      assert Printed(units, ts, k) == [];
      at := [];
    } else {
      hide GoodUnits, Printed, Down, NamesOf, Quantities, Sum, Rising;
      PrintedFacts(units, ts, k);
      FirstTerm(units, ts, k);
      var j, all := Down(units, ts, k), Printed(units, ts, k);
      var left := ts % units[j].value;
      var tail := RowsUsed(units, left, j);
      at := [j] + tail;
      ShiftRows(units, all, Printed(units, left, j), at, tail);
    }
  }

  lemma ShiftRows(units: seq<Unit>, all: seq<Term>, rest: seq<Term>, at: seq<nat>, tail: seq<nat>)
    requires all != [] && all[1..] == rest && AreTerms(NamesOf(units), all) && AreTerms(NamesOf(units), rest)
    requires at != [] && at[1..] == tail && |tail| == |rest|
    requires at[0] < |units| && units[at[0]].name == all[0].unit
    requires units[at[0]].value <= Sum(Quantities(NamesOf(units), all))
    requires forall l :: at[0] < l < |units| ==> Sum(Quantities(NamesOf(units), all)) < units[l].value
    requires forall i :: 0 <= i < |tail| ==> UsesRow(units, rest, i, tail[i])
    ensures |at| == |all| && forall i :: 0 <= i < |at| ==> UsesRow(units, all, i, at[i])
  {
    hide NamesOf, Quantities, Sum, AreTerms;
    assert all[0..] == all;
    forall i | 0 <= i < |at| ensures UsesRow(units, all, i, at[i]) {
      if i > 0 {
        assert all[i..] == rest[i - 1..];
        assert UsesRow(units, rest, i - 1, tail[i - 1]);
      }
    }
  }

  /**
   For every printed term, what is left to print from it on is less than every unit larger than its own,
   and its name is the last one in the table for its unit.
   */
  lemma PrinterIsGreedy(units: seq<Unit>, ts: nat) returns (at: seq<nat>)
    requires GoodUnits(units) && Rising(units) && ts < TS_INVALID
    ensures var ps := Printed(units, ts, |units|);
      && AreTerms(NamesOf(units), ps) && |at| == |ps|
      && forall i :: 0 <= i < |ps| ==> at[i] < |units| && units[at[i]].name == ps[i].unit
    ensures var ps := Printed(units, ts, |units|);
      forall i, l :: 0 <= i < |ps| && 0 <= l < |units| && units[l].value > units[at[i]].value ==>
        LeftFrom(units, ps, i) < units[l].value
    ensures forall i, l :: 0 <= i < |at| && at[i] < l < |units| ==> units[l].value > units[at[i]].value
  {
    hide Printed, LeftFrom, GoodUnits;
    at := RowsUsed(units, ts, |units|);
    var ps := Printed(units, ts, |units|);
    forall i | 0 <= i < |ps|
      ensures at[i] < |units| && units[at[i]].name == ps[i].unit
      ensures forall l :: 0 <= l < |units| && units[l].value > units[at[i]].value ==>
        LeftFrom(units, ps, i) < units[l].value
      ensures forall l :: at[i] < l < |units| ==> units[l].value > units[at[i]].value
    {
      assert UsesRow(units, ps, i, at[i]);
    }
  }

  // ----- the units of the program -----

  function Scale(k: nat): (v: nat) {
    if k < 2 then 1
    else if k < 4 then 1_000
    else if k < 8 then 1_000_000
    else if k < 12 then 60_000_000
    else if k < 16 then 3_600_000_000
    else if k < 19 then 86_400_000_000
    else if k < 22 then 604_800_000_000
    else if k < 25 then 2_630_016_000_000
    else 31_557_600_000_000
  }

  lemma RowValue(k: nat)
    requires k < |UNITS|
    ensures UNITS[k].value == Scale(k)
  {
  }

  lemma UnitsRise()
    ensures Rising(UNITS)
  {
    forall i, j | 0 <= i < j < |UNITS| ensures UNITS[i].value <= UNITS[j].value {
      RowValue(i);
      RowValue(j);
    }
  }

  lemma NameValue(k: nat, name: string)
    requires k < |UNITS| && UNITS[k].name == name
    ensures name in NamesOf(UNITS) && NamesOf(UNITS)[name] == Scale(k)
  {
    hide NamesOf;
    UnitsAreGood();
    FindAt(UNITS, k);
    RowValue(k);
  }

  /** How the units relate: a minute has 60 seconds, an hour 60 minutes, a day 24 hours, a week 7 days. */
  lemma UnitRatios()
    ensures var names := NamesOf(UNITS);
      && {"us", "ms", "s", "min", "m", "hr", "h", "d", "w", "M", "y"} <= names.Keys
      && names["us"] == 1 && names["ms"] == 1000 * names["us"] && names["s"] == 1000 * names["ms"]
      && names["m"] == 60 * names["s"] && names["min"] == names["m"]
      && names["h"] == 60 * names["m"] && names["hr"] == names["h"]
      && names["d"] == 24 * names["h"] && names["w"] == 7 * names["d"]
      && 100 * names["M"] == 3044 * names["d"] && 100 * names["y"] == 36525 * names["d"]
  {
    hide NamesOf;
    NameValue(1, "us");
    NameValue(3, "ms");
    NameValue(7, "s");
    NameValue(10, "min");
    NameValue(11, "m");
    NameValue(14, "hr");
    NameValue(15, "h");
    NameValue(18, "d");
    NameValue(21, "w");
    NameValue(24, "M");
    NameValue(27, "y");
  }

  // ----- numbers and blanks, character by character -----

  /** Spaces, tabs and newlines in front of a time span do not matter. */
  lemma LeadingSpace(names: Names, c: char, s: string, stale: bool)
    requires c in {' ', '\t', '\n'}
    ensures FromStr(names, [c] + s, stale) == FromStr(names, s, stale)
  {
    assert ([c] + s)[0] == c && ([c] + s)[1..] == s;
    assert Lead([c] + s, Blank) == 1 + Lead(s, Blank);
    assert ([c] + s)[1 + Lead(s, Blank)..] == s[Lead(s, Blank)..];
    hide Lead, TrimmedLength, ScanTerms, Total, Mul64, Value;
    assert Split([c] + s, Blank).1 == Split(s, Blank).1;
  }

  /**
   A bare number counts seconds, in 64 bits; from 2^64 on it is refused, and so is 2^64 - 1 if errno
   was already ERANGE.
   */
  lemma SecondsExactly(names: Names, n: nat, stale: bool)
    ensures FromStr(names, Decimal(n), stale) ==
      if n >= 0x1_0000_0000_0000_0000 || (n == 0xffff_ffff_ffff_ffff && stale) then 0xffff_ffff_ffff_ffff
      else Wrap64(n * 1_000_000)
  {
    var s := Decimal(n);
    assert "" + (s + "") == s;
    Cut(s, "", Digit);
    assert s + "" == s;
    hide FromStr, Split, Wrap64, Decimal, Value;
    assert Digit(s[0]) && Digit(s[|s| - 1]);
    FromStrOfTrimmed(names, "", s, "", stale);
  }
}
