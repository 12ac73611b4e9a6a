/** What the time span parser computes, for every list of terms, and the round trip with the printer. */
module TimespanProofs {
  import opened Basics
  import opened Timespan

  // ----- scanning -----

  lemma {:induction false} TrimmedLengthOf(a: string, b: string)
    requires All(b, Blank) && (a == [] || !Blank(a[|a| - 1]))
    ensures TrimmedLength(a + b) == |a|
  {
    if b == [] {
      assert a + b == a;
    } else {
      var c := b[..|b| - 1];
      assert (a + b)[..|a + b| - 1] == a + c;
      TrimmedLengthOf(a, c);
    }
  }

  lemma RenderStartsWithDigit(names: Names, ts: seq<Term>)
    requires AreTerms(names, ts) && ts != []
    ensures Render(ts) != [] && Digit(Render(ts)[0])
  {
    assert Render(ts)[0] == ts[0].digits[0];
  }

  lemma BodyAssociates(t: Term, rest: string)
    ensures Body(t) + rest == t.digits + (t.gap + (t.unit + rest))
  {
  }

  lemma ScanFirst(names: Names, ts: seq<Term>)
    requires AreTerms(names, ts) && ts != []
    ensures ScanTerm(names, Render(ts)) == Scanned(ts[0].digits, names[ts[0].unit], Render(ts[1..]))
  {
    hide Split, Lead;
    var t, tail := ts[0], Render(ts[1..]);
    assert IsTerm(names, t);
    if ts[1..] != [] {
      RenderStartsWithDigit(names, ts[1..]);
    }
    var rest := t.sep + tail;
    var u := t.unit + rest;
    var q := t.gap + u;
    BodyAssociates(t, rest);
    Cut(t.digits, q, Digit);
    Cut(t.gap, u, Blank);
    Cut(t.unit, rest, Alpha);
    Cut(t.sep, tail, Blank);
  }

  lemma {:induction false} ScanRender(names: Names, ts: seq<Term>)
    requires AreTerms(names, ts)
    ensures ScanTerms(names, Render(ts)) == Some(Quantities(names, ts))
    decreases |ts|
  {
    if ts != [] {
      RenderStartsWithDigit(names, ts);
      ScanFirst(names, ts);
      ScanRender(names, ts[1..]);
    }
  }

  // ----- adding up -----

  lemma {:induction false} WrapIsMod(n: nat)
    ensures Wrap64(n) == n % U64 && Wrap64(n) <= n
  {
    if n >= U64 {
      WrapIsMod(n - U64);
      assert n % U64 == (n - U64) % U64;
    }
  }

  lemma {:induction false} TotalIsWrappedSum(qs: seq<Quantity>, acc: nat, stale: bool)
    requires acc < TS_INVALID
    ensures Total(qs, acc, stale)
         == if !AnyOutOfRange(qs, stale) && acc + WrappedSum(qs) < TS_INVALID then acc + WrappedSum(qs) else TS_INVALID
    decreases |qs|
  {
    if qs != [] {
      var num := Mul64(qs[0].magnitude, qs[0].unit);
      if acc + num < TS_INVALID {
        TotalIsWrappedSum(qs[1..], acc + num, stale);
      }
    }
  }

  lemma {:induction false} WrappedSumBelow(qs: seq<Quantity>)
    ensures WrappedSum(qs) <= Sum(qs)
    ensures NoProductWraps(qs) ==> WrappedSum(qs) == Sum(qs)
    ensures !NoProductWraps(qs) ==> Sum(qs) >= U64
  {
    if qs != [] {
      WrappedSumBelow(qs[1..]);
      var p := qs[0].magnitude * qs[0].unit;
      WrapIsMod(p);
    }
  }

  lemma {:induction false} OutOfRangeIsTooLarge(qs: seq<Quantity>, stale: bool)
    requires AnyOutOfRange(qs, stale) && forall i :: 0 <= i < |qs| ==> qs[i].unit >= 1
    ensures Sum(qs) >= TS_INVALID
  {
    if OutOfRange(qs[0].magnitude, stale) {
      ProductAtLeast(qs[0].magnitude, qs[0].unit);
    } else {
      OutOfRangeIsTooLarge(qs[1..], stale);
    }
  }

  lemma ProductAtLeast(a: nat, b: nat)
    requires b >= 1
    ensures a * b >= a
  {
    assert a * b == a + a * (b - 1);
  }

  ghost predicate GoodNames(names: Names) {
    forall name :: name in names ==> names[name] >= 1
  }

  lemma {:induction false} QuantitiesArePositive(names: Names, ts: seq<Term>)
    requires GoodNames(names) && AreTerms(names, ts)
    ensures forall i :: 0 <= i < |Quantities(names, ts)| ==> Quantities(names, ts)[i].unit >= 1
  {
    if ts != [] {
      QuantitiesArePositive(names, ts[1..]);
    }
  }

  /** Adding up agrees with the documented value exactly when no product wraps, or the result is too large anyway. */
  lemma TotalMeaning(qs: seq<Quantity>, stale: bool)
    requires forall i :: 0 <= i < |qs| ==> qs[i].unit >= 1
    ensures Total(qs, 0, stale) == Meaning(qs)
       <==> NoProductWraps(qs) || AnyOutOfRange(qs, stale) || WrappedSum(qs) >= TS_INVALID
  {
    TotalIsWrappedSum(qs, 0, stale);
    WrappedSumBelow(qs);
    if AnyOutOfRange(qs, stale) {
      OutOfRangeIsTooLarge(qs, stale);
    }
  }

  // ----- the whole string -----

  function WithoutLastSep(ts: seq<Term>): (r: seq<Term>)
    requires ts != []
  {
    ts[|ts| - 1 := ts[|ts| - 1].(sep := "")]
  }

  lemma BodyEnds(names: Names, t: Term)
    requires IsTerm(names, t)
    ensures Body(t) != [] && Digit(Body(t)[0]) && Alpha(Body(t)[|Body(t)| - 1])
  {
  }

  lemma {:induction false} TermsLastSep(names: Names, ts: seq<Term>)
    requires AreTerms(names, ts) && ts != []
    ensures AreTerms(names, WithoutLastSep(ts))
    ensures Quantities(names, WithoutLastSep(ts)) == Quantities(names, ts)
  {
    var r := WithoutLastSep(ts);
    if |ts| > 1 {
      TermsLastSep(names, ts[1..]);
      assert r[1..] == WithoutLastSep(ts[1..]) && r[0] == ts[0];
    } else {
      assert r[1..] == ts[1..];
    }
  }

  lemma {:induction false} RenderLastSep(names: Names, ts: seq<Term>)
    requires AreTerms(names, ts) && ts != []
    ensures Render(ts) == Render(WithoutLastSep(ts)) + ts[|ts| - 1].sep
    ensures var s := Render(WithoutLastSep(ts)); s != [] && Alpha(s[|s| - 1])
  {
    var r := WithoutLastSep(ts);
    var t := ts[0];
    assert IsTerm(names, t);
    BodyEnds(names, t);
    hide IsTerm;
    if |ts| == 1 {
      assert Body(r[0]) == Body(t);
      hide Body;
      assert Render(r[1..]) == [] && Render(ts[1..]) == [];
      assert Render(r) == Body(t) + ([] + []);
      assert Render(ts) == Body(t) + (t.sep + []);
    } else {
      hide Body;
      RenderLastSep(names, ts[1..]);
      assert r[1..] == WithoutLastSep(ts[1..]) && r[0] == t;
      AppendLast(Body(t), t.sep, Render(r[1..]), ts[|ts| - 1].sep);
    }
  }

  lemma AppendLast(body: string, sep: string, tail: string, last: string)
    ensures body + (sep + (tail + last)) == (body + (sep + tail)) + last
    ensures tail != [] ==> (body + (sep + tail))[|body + (sep + tail)| - 1] == tail[|tail| - 1]
  {
  }

  /** What trimming and the special cases of the parser do with text between blanks that starts with a number. */
  lemma FromStrOfTrimmed(names: Names, lead: string, s: string, trail: string, stale: bool)
    requires All(lead, Blank) && All(trail, Blank)
    requires s != [] && Digit(s[0]) && !Blank(s[|s| - 1])
    ensures var (digits, rest) := Split(s, Digit);
      FromStr(names, lead + (s + trail), stale) ==
      if digits != [] && OutOfRange(Value(digits), stale) then TS_INVALID
      else if rest == [] then Mul64(Value(digits), TS_SEC)
      else match ScanTerms(names, s) case None => TS_INVALID case Some(qs) => Total(qs, 0, stale)
  {
    var p := s + trail;
    assert p[0] == s[0];
    Cut(lead, p, Blank);
    TrimmedLengthOf(s, trail);
    assert p[..|s|] == s;
    assert p[0] != 'i';
    hide Split, Lead, TrimmedLength, ScanTerms, Total, Mul64, Value, OutOfRange;
  }

  lemma FirstDigits(names: Names, ts: seq<Term>)
    requires AreTerms(names, ts) && ts != []
    ensures Split(Render(ts), Digit).0 == ts[0].digits && Split(Render(ts), Digit).1 != []
  {
    hide Split;
    var t, rest := ts[0], ts[0].sep + Render(ts[1..]);
    assert IsTerm(names, t);
    BodyAssociates(t, rest);
    Cut(t.digits, t.gap + (t.unit + rest), Digit);
  }

  /** Reading a written list of terms, with blanks anywhere around its parts, adds up its quantities. */
  lemma FromStrOfTerms(names: Names, lead: string, ts: seq<Term>, stale: bool)
    requires AreTerms(names, ts) && ts != [] && All(lead, Blank)
    ensures FromStr(names, lead + Render(ts), stale) == Total(Quantities(names, ts), 0, stale)
  {
    hide FromStr, ScanTerms, Split, Render, Total, Quantities, Value;
    var us := WithoutLastSep(ts);
    RenderLastSep(names, ts);
    TermsLastSep(names, ts);
    RenderStartsWithDigit(names, us);
    assert IsTerm(names, ts[|ts| - 1]);
    FromStrOfTrimmed(names, lead, Render(us), ts[|ts| - 1].sep, stale);
    ScanRender(names, us);
    FirstDigits(names, us);
    FirstOutOfRange(names, us, stale);
  }

  lemma FirstOutOfRange(names: Names, ts: seq<Term>, stale: bool)
    requires AreTerms(names, ts) && ts != []
    ensures OutOfRange(Value(ts[0].digits), stale) ==> Total(Quantities(names, ts), 0, stale) == TS_INVALID
  {
  }

  /** The parser returns the documented value of a list of terms exactly under the condition of `TotalMeaning`. */
  lemma TimespanMeaning(names: Names, lead: string, ts: seq<Term>, stale: bool)
    requires GoodNames(names) && AreTerms(names, ts) && ts != [] && All(lead, Blank)
    ensures var qs := Quantities(names, ts);
      FromStr(names, lead + Render(ts), stale) == Meaning(qs)
      <==> NoProductWraps(qs) || AnyOutOfRange(qs, stale) || WrappedSum(qs) >= TS_INVALID
  {
    FromStrOfTerms(names, lead, ts, stale);
    QuantitiesArePositive(names, ts);
    TotalMeaning(Quantities(names, ts), stale);
  }

  /** A bare number counts seconds, with the same caveat. */
  lemma UnitlessMeaning(names: Names, lead: string, digits: string, trail: string, stale: bool)
    requires digits != [] && All(digits, Digit) && All(lead, Blank) && All(trail, Blank)
    ensures var q := Quantity(Value(digits), TS_SEC);
      FromStr(names, lead + (digits + trail), stale) == Meaning([q])
      <==> q.magnitude * q.unit < U64 || OutOfRange(q.magnitude, stale)
  {
    FromStrOfTrimmed(names, lead, digits, trail, stale);
    Cut(digits, "", Digit);
    assert digits + "" == digits;
    hide FromStr, Split, Mul64, Value, OutOfRange;
    var q := Quantity(Value(digits), TS_SEC);
    UnitlessProduct(q, stale);
  }

  lemma UnitlessProduct(q: Quantity, stale: bool)
    requires q.unit == TS_SEC
    ensures (if OutOfRange(q.magnitude, stale) then TS_INVALID else Mul64(q.magnitude, TS_SEC)) == Meaning([q])
       <==> q.magnitude * q.unit < U64 || OutOfRange(q.magnitude, stale)
  {
    assert Sum([q]) == q.magnitude * TS_SEC;
    EvenProduct(q.magnitude);
  }

  /** A whole number of seconds is even, also when truncated, so it is never TS_INVALID. */
  lemma EvenProduct(m: nat)
    ensures Mul64(m, TS_SEC) % 2 == 0
  {
    WrapKeepsEven(m * TS_SEC);
  }

  lemma {:induction false} WrapKeepsEven(n: nat)
    requires n % 2 == 0
    ensures Wrap64(n) % 2 == 0
  {
    if n >= U64 {
      WrapKeepsEven(n - U64);
    }
  }

  lemma ScannedIsTerm(names: Names, s: string) returns (t: Term)
    requires ScanTerm(names, s).Scanned?
    ensures IsTerm(names, t)
    ensures var r := ScanTerm(names, s);
      && s == Body(t) + (t.sep + r.rest)
      && t.digits == r.digits && names[t.unit] == r.unit
  {
    var (digits, q) := Split(s, Digit);
    var (gap, u) := Split(q, Blank);
    var (name, rest) := Split(u, Alpha);
    var (sep, _) := Split(rest, Blank);
    SplitFacts(s, Digit);
    SplitFacts(q, Blank);
    SplitFacts(u, Alpha);
    SplitFacts(rest, Blank);
    t := Term(digits, gap, name, sep);
    BodyAssociates(t, rest);
  }

  /** The parser accepts nothing but written lists of terms: what it scans is a rendering of what it found. */
  lemma {:induction false} AcceptedIsRendering(names: Names, s: string) returns (ts: seq<Term>)
    requires ScanTerms(names, s).Some?
    ensures AreTerms(names, ts) && Render(ts) == s
    ensures Quantities(names, ts) == ScanTerms(names, s).value
    decreases |s|
  {
    if s == [] {
      ts := [];
    } else {
      var t := ScannedIsTerm(names, s);
      var rest := AcceptedIsRendering(names, ScanTerm(names, s).rest);
      ts := [t] + rest;
      PrependTerm(names, t, rest);
    }
  }

  lemma PrependTerm(names: Names, t: Term, rest: seq<Term>)
    requires IsTerm(names, t) && AreTerms(names, rest)
    ensures AreTerms(names, [t] + rest)
    ensures Render([t] + rest) == Body(t) + (t.sep + Render(rest))
    ensures Quantities(names, [t] + rest)
         == [Quantity(Value(t.digits), names[t.unit])] + Quantities(names, rest)
  {
    assert ([t] + rest)[1..] == rest;
  }

  // ----- the printer -----

  lemma {:induction false} FindAt(units: seq<Unit>, k: nat)
    requires k < |units| && forall i, j :: 0 <= i < j < |units| ==> units[i].name != units[j].name
    ensures units[k].name in NamesOf(units) && NamesOf(units)[units[k].name] == units[k].value
  {
    if k > 0 {
      FindAt(units[1..], k - 1);
    }
  }

  lemma {:induction false} GoodUnitsNames(units: seq<Unit>)
    requires forall i :: 0 <= i < |units| ==> units[i].value >= 1
    ensures GoodNames(NamesOf(units))
  {
    if units != [] {
      GoodUnitsNames(units[1..]);
    }
  }

  /** The word for an endless time span is known exactly when no blank follows it. */
  lemma InfinityExactly(names: Names, lead: string, trail: string, stale: bool)
    requires All(lead, Blank) && All(trail, Blank)
    ensures FromStr(names, lead + ("infinity" + trail), stale) == (if trail == "" then TS_INFINITY else TS_INVALID)
  {
    var word := "infinity";
    Cut(lead, word + trail, Blank);
    TrimmedLengthOf(word, trail);
    var p := word + trail;
    assert p[..TrimmedLength(p)] == word;
    Cut("", word, Digit);
    assert "" + word == word;
    assert ScanTerm(names, word) == Malformed;
  }

  /** The printed terms denote the value; each counts at least one, and the units strictly decrease. */
  lemma {:induction false} PrintedFacts(units: seq<Unit>, ts: nat, k: nat)
    requires GoodUnits(units) && k <= |units| && ts < TS_INVALID
    ensures var ps := Printed(units, ts, k);
      && AreTerms(NamesOf(units), ps)
      && var qs := Quantities(NamesOf(units), ps);
      && Sum(qs) == ts
      && NoProductWraps(qs)
      && (forall i :: 0 <= i < |qs| ==> 1 <= qs[i].magnitude <= ts && 1 <= qs[i].unit <= ts)
      && (forall i, j :: 0 <= i < j < |qs| ==> qs[j].unit < qs[i].unit)
      && (ts > 0 ==> ps != [])
    decreases ts
  {
    if ts > 0 {
      var j := Down(units, ts, k);
      var v := units[j].value;
      FindAt(units, j);
      DivisionFacts(ts, v);
      PrintedFacts(units, ts % v, j);
      var rest := Printed(units, ts % v, j);
      var t := Term(Decimal(ts / v), "", units[j].name, "");
      assert Printed(units, ts, k) == [t] + rest;
      assert IsTerm(NamesOf(units), t);
      hide Decimal, Down, NamesOf, Printed, Render, Body;
      PrependTerm(NamesOf(units), t, rest);
      TidyCons(Quantity(ts / v, v), Quantities(NamesOf(units), rest), ts, ts % v);
    }
  }

  /** Putting a larger unit in front. */
  lemma TidyCons(q: Quantity, qs: seq<Quantity>, ts: nat, r: nat)
    requires 1 <= q.magnitude <= ts < TS_INVALID && 1 <= q.unit <= ts && ts == q.magnitude * q.unit + r && r < q.unit
    requires Sum(qs) == r && NoProductWraps(qs)
    requires forall i :: 0 <= i < |qs| ==> 1 <= qs[i].magnitude <= r && 1 <= qs[i].unit <= r
    requires forall i, j :: 0 <= i < j < |qs| ==> qs[j].unit < qs[i].unit
    ensures var all := [q] + qs;
      && Sum(all) == ts && NoProductWraps(all)
      && (forall i :: 0 <= i < |all| ==> 1 <= all[i].magnitude <= ts && 1 <= all[i].unit <= ts)
      && (forall i, j :: 0 <= i < j < |all| ==> all[j].unit < all[i].unit)
  {
    assert ([q] + qs)[1..] == qs;
  }

  lemma DivisionFacts(ts: nat, v: nat)
    requires 1 <= v <= ts
    ensures ts / v * v + ts % v == ts && 1 <= ts / v <= ts && ts % v < v
  {
    QuotientBounds(ts, v, ts / v, ts % v);
  }

  lemma QuotientBounds(ts: nat, v: nat, q: int, r: nat)
    requires 1 <= v <= ts && ts == q * v + r && r < v
    ensures 1 <= q <= ts
  {
    if q > 0 {
      assert q * v == q + q * (v - 1) && q * (v - 1) >= 0;
    }
  }

  lemma ZeroRoundTrip(names: Names, stale: bool)
    ensures FromStr(names, "0", stale) == 0
  {
    Cut("", "0", Blank);
    assert "" + "0" == "0";
    TrimmedLengthOf("0", "");
    assert "0" + "" == "0";
    assert All("0", Digit);
    Cut("0", "", Digit);
    assert Value("0") == 0;
  }

  lemma TermsRoundTrip(units: seq<Unit>, ts: nat, stale: bool)
    requires GoodUnits(units) && 0 < ts < TS_INFINITY
    ensures FromStr(NamesOf(units), Render(Printed(units, ts, |units|)), stale) == ts
  {
    hide FromStr, Printed, Render, Quantities, NamesOf, GoodUnits;
    var ps := Printed(units, ts, |units|);
    PrintedFacts(units, ts, |units|);
    FromStrOfTerms(NamesOf(units), "", ps, stale);
    assert "" + Render(ps) == Render(ps);
    var qs := Quantities(NamesOf(units), ps);
    TotalIsWrappedSum(qs, 0, stale);
    WrappedSumBelow(qs);
    if AnyOutOfRange(qs, stale) {
      OutOfRangeIsTooLarge(qs, stale);
    }
  }

  /** Every time span but TS_INVALID is read back from what is printed for it, whatever errno was. */
  lemma TimespanRoundTrip(units: seq<Unit>, ts: nat, stale: bool)
    requires GoodUnits(units) && ts < TS_INVALID
    ensures FromStr(NamesOf(units), ToStr(units, ts), stale) == ts
  {
    hide FromStr, NamesOf, GoodUnits, Render, Printed;
    if ts == 0 {
      ZeroRoundTrip(NamesOf(units), stale);
    } else if ts == TS_INFINITY {
      InfinityExactly(NamesOf(units), "", "", stale);
      assert "" + ("infinity" + "") == "infinity";
    } else {
      TermsRoundTrip(units, ts, stale);
    }
  }

  lemma OneTerm(units: seq<Unit>, n: nat, k: nat) returns (t: Term)
    requires GoodUnits(units) && k < |units|
    ensures AreTerms(NamesOf(units), [t])
    ensures "" + Render([t]) == Decimal(n) + units[k].name
    ensures Quantities(NamesOf(units), [t]) == [Quantity(n, units[k].value)]
  {
    FindAt(units, k);
    t := Term(Decimal(n), "", units[k].name, "");
    assert IsTerm(NamesOf(units), t);
    assert Render([t]) == Body(t) + (t.sep + Render([]));
  }

  lemma FromStrOfOneTerm(units: seq<Unit>, n: nat, k: nat)
    requires GoodUnits(units) && k < |units|
    ensures FromStr(NamesOf(units), Decimal(n) + units[k].name, false) == Total([Quantity(n, units[k].value)], 0, false)
  {
    var t := OneTerm(units, n, k);
    FromStrOfTerms(NamesOf(units), "", [t], false);
  }

  lemma TotalOfOne(q: Quantity)
    requires q.magnitude < U64
    ensures Total([q], 0, false)
         == if Mul64(q.magnitude, q.unit) < TS_INVALID then Mul64(q.magnitude, q.unit) else TS_INVALID
    ensures Sum([q]) == q.magnitude * q.unit
  {
    TotalIsWrappedSum([q], 0, false);
    assert WrappedSum([q]) == Mul64(q.magnitude, q.unit);
  }
}
