/** timespan.c as it runs: pointers moving over the input, and a bounded output buffer. */
module TimespanCode {
  import opened Basics
  import opened Timespan
  import opened TimespanProofs

  /** strtoumax in base ten on text that starts with a digit: the saturated value, an out-of-range flag, the end. */
  method ReadNumber(str: string, from: nat) returns (num: nat, range: bool, to: nat)
    requires from <= |str|
    ensures from <= to <= |str|
    ensures Split(str[from..], Digit) == (str[from..to], str[to..])
    ensures range <==> Value(str[from..to]) >= U64
    ensures num == if range then U64 - 1 else Value(str[from..to])
  {
    to := ScanWhile(str, from, |str|, Digit);
    assert str[from..|str|] == str[from..] && str[to..|str|] == str[to..];
    var v, i := 0, from;
    while i < to
      invariant from <= i <= to
      invariant v == Value(str[from..i])
    {
      assert str[from..i + 1][..i - from] == str[from..i];
      v := 10 * v + DigitValue(str[i]);
      i := i + 1;
    }
    range := v >= U64;
    num := if range then U64 - 1 else v;
  }

  lemma NumberEndsBeforeBlanks(str: string, from: nat, to: nat, end: nat)
    requires from <= end <= |str| && from <= to <= |str| && All(str[end..], Blank)
    requires Split(str[from..], Digit) == (str[from..to], str[to..])
    ensures to <= end && Split(str[from..end], Digit) == (str[from..to], str[to..end])
  {
    hide Split;
    assert str[from..] == str[from..end] + str[end..];
    DigitsStopAtBlanks(str[from..end], str[end..]);
    SplitFacts(str[from..end], Digit);
    var (a, b) := Split(str[from..end], Digit);
    assert |a| == to - from && |b| == end - to;
    assert str[from..end][to - from..] == str[to..end];
  }

  /** The search through the unit table. */
  method FindUnit(units: seq<Unit>, name: string) returns (r: Option<nat>)
    ensures r == if name in NamesOf(units) then Some(NamesOf(units)[name]) else None
  {
    var k := 0;
    while k < |units|
      invariant 0 <= k <= |units|
      invariant name in NamesOf(units) <==> name in NamesOf(units[k..])
      invariant name in NamesOf(units) ==> NamesOf(units)[name] == NamesOf(units[k..])[name]
    {
      if units[k].name == name {
        return Some(units[k].value);
      }
      assert units[k..][1..] == units[k + 1..];
      k := k + 1;
    }
    r := None;
  }

  /** The rest of the parse: what the remaining text adds to `ts`. */
  function Rest(names: Names, s: string, ts: nat, stale: bool): (r: nat)
    requires ts <= TS_INVALID
  {
    match ScanTerms(names, s)
    case None => TS_INVALID
    case Some(qs) => Total(qs, ts, stale)
  }

  lemma TotalStep(q: Quantity, qs: seq<Quantity>, ts: nat, stale: bool)
    requires ts < TS_INVALID
    ensures Total([q] + qs, ts, stale)
         == if OutOfRange(q.magnitude, stale) || TS_INVALID - ts <= Mul64(q.magnitude, q.unit) then TS_INVALID
            else Total(qs, ts + Mul64(q.magnitude, q.unit), stale)
  {
    assert ([q] + qs)[1..] == qs;
  }

  lemma ScanStep(names: Names, s: string)
    requires s != []
    ensures match ScanTerm(names, s)
      case Malformed => ScanTerms(names, s).None?
      case Scanned(digits, unit, rest) =>
        ScanTerms(names, s) ==
        if ScanTerms(names, rest).None? then None
        else Some([Quantity(Value(digits), unit)] + ScanTerms(names, rest).value)
  {
  }

  /** One round of the loop: a failure ends the parse, anything else passes on what was read. */
  lemma RestStep(names: Names, s: string, ts: nat, stale: bool)
    requires s != [] && ts < TS_INVALID
    ensures match ScanTerm(names, s)
      case Malformed => Rest(names, s, ts, stale) == TS_INVALID
      case Scanned(digits, unit, rest) =>
        var num := Mul64(Value(digits), unit);
        Rest(names, s, ts, stale) ==
        if OutOfRange(Value(digits), stale) || TS_INVALID - ts <= num then TS_INVALID
        else Rest(names, rest, ts + num, stale)
  {
    hide ScanTerm, ScanTerms;
    ScanStep(names, s);
    var t := ScanTerm(names, s);
    if t.Scanned? {
      RestCons(names, s, Quantity(Value(t.digits), t.unit), t.rest, ts, stale);
    }
  }

  lemma RestCons(names: Names, s: string, q: Quantity, rest: string, ts: nat, stale: bool)
    requires ts < TS_INVALID
    requires ScanTerms(names, s)
          == if ScanTerms(names, rest).None? then None else Some([q] + ScanTerms(names, rest).value)
    ensures Rest(names, s, ts, stale)
         == if OutOfRange(q.magnitude, stale) || TS_INVALID - ts <= Mul64(q.magnitude, q.unit) then TS_INVALID
            else Rest(names, rest, ts + Mul64(q.magnitude, q.unit), stale)
  {
    if ScanTerms(names, rest).Some? {
      TotalStep(q, ScanTerms(names, rest).value, ts, stale);
    }
  }

  lemma {:induction false} TrimmedFacts(s: string)
    ensures All(s[TrimmedLength(s)..], Blank)
    ensures TrimmedLength(s) > 0 ==> !Blank(s[TrimmedLength(s) - 1])
  {
    if s != [] && Blank(s[|s| - 1]) {
      var front := s[..|s| - 1];
      TrimmedFacts(front);
      assert s[TrimmedLength(s)..] == front[TrimmedLength(front)..] + [s[|s| - 1]];
    }
  }

  /** Blanks after the end do not lengthen a run of digits. */
  lemma DigitsStopAtBlanks(s: string, blanks: string)
    requires All(blanks, Blank)
    ensures Split(s + blanks, Digit) == (Split(s, Digit).0, Split(s, Digit).1 + blanks)
  {
    hide Split;
    SplitFacts(s, Digit);
    var (a, b) := Split(s, Digit);
    assert s + blanks == a + (b + blanks);
    Cut(a, b + blanks, Digit);
  }

  method TrimEnd(str: string, from: nat) returns (end: nat)
    requires from <= |str|
    ensures end == from + TrimmedLength(str[from..])
    ensures from <= end <= |str|
  {
    end := from;
    var q := from;
    while q < |str|
      invariant from <= end <= q <= |str|
      invariant end - from == TrimmedLength(str[from..q])
    {
      assert str[from..q + 1][..q - from] == str[from..q];
      if !Blank(str[q]) {
        end := q + 1;
      }
      q := q + 1;
    }
    assert str[from..q] == str[from..];
  }

  /** timespan_from_str. */
  method TimespanFromStr(units: seq<Unit>, str: string, stale: bool) returns (r: nat)
    ensures r == FromStr(NamesOf(units), str, stale)
  {
    hide Split, ScanTerms, Total, Value, NamesOf, TrimmedLength;
    var p := ScanWhile(str, 0, |str|, Blank);
    assert str[0..|str|] == str && str[p..|str|] == str[p..];
    var end := TrimEnd(str, p);
    assert str[p..][..end - p] == str[p..end] && str[p..][end - p..] == str[end..];
    TrimmedFacts(str[p..]);
    if end == p {
      return TS_INVALID;
    }
    if str[p..] == "infinity" {
      return TS_INFINITY;
    }
    SplitFacts(str[p..end], Digit);
    if Digit(str[p]) {
      var num, range, q := ReadNumber(str, p);
      NumberEndsBeforeBlanks(str, p, q, end);
      if num == U64 - 1 && (range || stale) {
        return TS_INVALID;
      }
      var b := ScanWhile(str, q, |str|, Blank);
      OnlyBlanksLeft(str, q, b, end);
      if b == |str| {
        return Mul64(num, TS_SEC);
      }
    }
    r := ParseLoop(units, str, p, end, stale);
  }

  /** Skipping blanks reaches the end of the string exactly when the trimmed text is used up. */
  lemma OnlyBlanksLeft(str: string, q: nat, b: nat, end: nat)
    requires q <= b <= |str| && q <= end <= |str| && All(str[end..], Blank) && (end > q ==> !Blank(str[end - 1]))
    requires Split(str[q..|str|], Blank) == (str[q..b], str[b..|str|])
    ensures b == |str| <==> q == end
  {
    hide Split;
    SplitFacts(str[q..|str|], Blank);
    assert q == end ==> str[q..|str|] == str[end..];
  }

  /** The main loop of timespan_from_str. */
  method ParseLoop(units: seq<Unit>, str: string, start: nat, end: nat, stale: bool) returns (ts: nat)
    requires start <= end <= |str| && All(str[end..], Blank)
    ensures ts == Rest(NamesOf(units), str[start..end], 0, stale)
  {
    hide ScanTerm, NamesOf, Mul64, OutOfRange, Value;
    ts := 0;
    var p := start;
    while p < end
      invariant start <= p <= end && ts < TS_INVALID
      invariant Rest(NamesOf(units), str[p..end], ts, stale) == Rest(NamesOf(units), str[start..end], 0, stale)
    {
      RestStep(NamesOf(units), str[p..end], ts, stale);
      var digits, unit, next := ReadTerm(units, str, p, end, stale);
      if unit.None? {
        return TS_INVALID;
      }
      var num := Mul64(digits, unit.value);
      if TS_INVALID - ts <= num {
        return TS_INVALID;
      }
      ts := ts + num;
      p := next;
    }
  }

  /** The first half of the loop body: magnitude, blanks, unit, blanks; no unit means that the parse fails here. */
  method ReadTerm(units: seq<Unit>, str: string, p: nat, end: nat, stale: bool)
    returns (num: nat, unit: Option<nat>, next: nat)
    requires p < end <= |str| && All(str[end..], Blank)
    ensures var t := ScanTerm(NamesOf(units), str[p..end]);
      if t.Malformed? || OutOfRange(Value(t.digits), stale) then unit.None?
      else unit == Some(t.unit) && num == Value(t.digits) && p < next <= end && str[next..end] == t.rest
  {
    hide Split, Value, NamesOf;
    unit, next := None, p;
    var range, q;
    num, range, q := ReadNumber(str, p);
    NumberEndsBeforeBlanks(str, p, q, end);
    SplitFacts(str[p..end], Digit);
    if !Digit(str[p]) {
      return;
    }
    if num == U64 - 1 && (range || stale) {
      return;
    }
    q := ScanWhile(str, q, end, Blank);
    var r := ScanWhile(str, q, end, Alpha);
    if r == q {
      return;
    }
    unit := FindUnit(units, str[q..r]);
    next := ScanWhile(str, r, end, Blank);
  }

  // ----- printing -----

  function Min(a: nat, b: nat): (r: nat) {
    if a < b then a else b
  }

  /** The buffer holds as much of `text` as fits in `size`, terminated, and nothing after that was touched. */
  ghost predicate Holds(buf: seq<char>, before: seq<char>, size: nat, text: string)
    requires 0 < size <= |buf| == |before|
  {
    var n := Min(|text|, size - 1);
    buf[..n] == text[..n] && buf[n] == '\0' && buf[n + 1..] == before[n + 1..]
  }

  /** The buffer between two writes: untouched until something was written. */
  ghost predicate Pending(buf: seq<char>, before: seq<char>, size: nat, done: string)
    requires 0 < size <= |buf| == |before|
  {
    if done == "" then buf == before else Holds(buf, before, size, done)
  }

  /** Copies the first `n` characters of `text` to offset `at` and terminates them. */
  method Copy(buf: array<char>, at: nat, n: nat, text: string)
    requires at + n < buf.Length && n <= |text|
    modifies buf
    ensures buf[..] == old(buf[..at]) + text[..n] + ['\0'] + old(buf[at + n + 1..])
  {
    var i := 0;
    while i < n
      invariant 0 <= i <= n
      invariant forall j :: 0 <= j < at || at + i <= j < buf.Length ==> buf[j] == old(buf[j])
      invariant forall j :: at <= j < at + i ==> buf[j] == text[j - at]
    {
      buf[at + i] := text[i];
      i := i + 1;
    }
    buf[at + n] := '\0';
  }

  /** What a truncated write adds to a buffer that already holds `done`. */
  lemma CopyHolds(
    buf: seq<char>, next: seq<char>, before: seq<char>, size: nat, done: string, text: string, at: nat, n: nat)
    requires 0 < size <= |buf| == |before| && at == Min(|done|, size - 1) && n == Min(|text|, size - 1 - at)
    requires Pending(buf, before, size, done)
    requires next == buf[..at] + text[..n] + ['\0'] + buf[at + n + 1..]
    ensures Holds(next, before, size, done + text)
  {
    assert buf[..at] == done[..at] && buf[at + 1..] == before[at + 1..];
    var all := done + text;
    assert at + n == Min(|all|, size - 1);
    assert n > 0 ==> done[..at] == done;
    assert next[..at + n] == done[..at] + text[..n] == all[..at + n];
    assert next[at + n + 1..] == buf[at + 1..][n..] == before[at + 1..][n..] == before[at + n + 1..];
  }

  /** snprintf at offset `at` of a buffer of which `size` characters may be used in all. */
  method Append(buf: array<char>, at: nat, size: nat, text: string, ghost done: string, ghost before: seq<char>)
    requires 0 < size <= buf.Length && |before| == buf.Length && at == Min(|done|, size - 1)
    requires Pending(buf[..], before, size, done) && text != ""
    modifies buf
    ensures Holds(buf[..], before, size, done + text) && Pending(buf[..], before, size, done + text)
  {
    ghost var was := buf[..];
    var n := Min(|text|, size - 1 - at);
    Copy(buf, at, n, text);
    CopyHolds(was, buf[..], before, size, done, text, at, n);
  }

  /** timespan_to_str. */
  method TimespanToStr(units: seq<Unit>, buf: array?<char>, size: nat, ts: nat) returns (len: int)
    requires GoodUnits(units) && ts <= TS_INVALID && (buf != null ==> size <= buf.Length)
    modifies if buf == null then {} else {buf}
    ensures ts == TS_INVALID ==> len == -1
    ensures ts < TS_INVALID ==> len == |ToStr(units, ts)|
    ensures buf != null && size > 0 && ts < TS_INVALID ==> Holds(buf[..], old(buf[..]), size, ToStr(units, ts))
    ensures buf != null && (size == 0 || ts == TS_INVALID) ==> buf[..] == old(buf[..])
  {
    hide GoodUnits, Render, Printed;
    ghost var before := if buf == null then [] else buf[..];
    var out := if size == 0 then null else buf;
    if ts == 0 {
      if out != null {
        Append(out, 0, size, "0", "", before);
        assert "" + "0" == "0";
      }
      return 1;
    }
    if ts == TS_INVALID {
      return -1;
    }
    if ts == TS_INFINITY {
      if out != null {
        Append(out, 0, size, "infinity", "", before);
        assert "" + "infinity" == "infinity";
      }
      return 8;
    }
    len := PrintLoop(units, out, size, ts);
  }

  /** The printing loop; a missing buffer only counts. */
  method PrintLoop(units: seq<Unit>, buf: array?<char>, size: nat, ts: nat) returns (len: nat)
    requires GoodUnits(units) && 0 < ts < TS_INFINITY && (buf != null ==> 0 < size <= buf.Length)
    modifies if buf == null then {} else {buf}
    ensures len == |ToStr(units, ts)|
    ensures buf != null ==> Holds(buf[..], old(buf[..]), size, ToStr(units, ts))
  {
    hide GoodUnits, Decimal, Printed, Render, Holds;
    ghost var before := if buf == null then [] else buf[..];
    var k: nat, left: nat, at: nat := |units|, ts, 0;
    len := 0;
    ghost var done := "";
    assert "" + Render(Printed(units, ts, k)) == ToStr(units, ts);
    while left > 0
      invariant 0 <= k <= |units| && left < TS_INVALID
      invariant done + Render(Printed(units, left, k)) == ToStr(units, ts) && len == |done|
      invariant done == "" ==> left > 0
      invariant buf != null ==> at == Min(|done|, size - 1)
      invariant buf != null ==> Pending(buf[..], before, size, done)
      decreases left
    {
      var j := DownLoop(units, left, k);
      PrintedFromBelow(units, left, k, j);
      k := j;
      PrintedStep(units, left, k);
      var text := Decimal(left / units[k].value) + units[k].name;
      ghost var rest := Render(Printed(units, left % units[k].value, k));
      assert done + (text + rest) == (done + text) + rest;
      if buf != null {
        Append(buf, at, size, text, done, before);
        at := Min(at + |text|, size - 1);
      }
      left := left % units[k].value;
      len := len + |text|;
      done := done + text;
    }
    NothingLeft(units, k);
    assert done + "" == done;
  }

  lemma NothingLeft(units: seq<Unit>, k: nat)
    requires GoodUnits(units) && k <= |units|
    ensures Render(Printed(units, 0, k)) == ""
  {
  }

  method DownLoop(units: seq<Unit>, ts: nat, start: nat) returns (k: nat)
    requires start <= |units|
    ensures k == Down(units, ts, start) && Down(units, ts, k) == k
  {
    k := start;
    while k > 0 && ValueAt(units, k) > ts
      invariant 0 <= k <= start
      invariant Down(units, ts, k) == Down(units, ts, start)
    {
      k := k - 1;
    }
  }

  lemma PrintedFromBelow(units: seq<Unit>, ts: nat, k: nat, j: nat)
    requires GoodUnits(units) && j <= k <= |units| && 0 < ts < TS_INVALID
    requires Down(units, ts, k) == j && Down(units, ts, j) == j
    ensures Printed(units, ts, k) == Printed(units, ts, j)
  {
  }

  lemma PrintedUnit(units: seq<Unit>, ts: nat, k: nat)
    requires GoodUnits(units) && k <= |units| && 0 < ts < TS_INVALID && Down(units, ts, k) == k
    ensures k < |units| && 1 <= units[k].value <= ts && ts % units[k].value < ts && units[k].name != ""
  {
    DivisionFacts(ts, units[k].value);
  }

  /** What one round of the printing loop writes, and what it leaves to print. */
  lemma PrintedStep(units: seq<Unit>, ts: nat, k: nat)
    requires GoodUnits(units) && k <= |units| && 0 < ts < TS_INVALID && Down(units, ts, k) == k
    ensures k < |units| && 1 <= units[k].value <= ts && ts % units[k].value < ts && units[k].name != ""
    ensures Render(Printed(units, ts, k))
         == (Decimal(ts / units[k].value) + units[k].name) + Render(Printed(units, ts % units[k].value, k))
  {
    hide GoodUnits, Decimal, Down;
    PrintedUnit(units, ts, k);
    var v := units[k].value;
    var t := Term(Decimal(ts / v), "", units[k].name, "");
    var rest := Printed(units, ts % v, k);
    assert Printed(units, ts, k) == [t] + rest;
    hide Printed;
    RenderOne(t, rest);
  }

  lemma RenderOne(t: Term, rest: seq<Term>)
    requires t.gap == "" && t.sep == ""
    ensures Render([t] + rest) == (t.digits + t.unit) + Render(rest)
  {
    assert ([t] + rest)[1..] == rest;
    assert Body(t) == t.digits + t.unit;
    assert t.sep + Render(rest) == Render(rest);
  }
}
