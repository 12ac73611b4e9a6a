/**
 Time spans as timespan.c reads and prints them: a list of magnitude and unit
 pairs, following the time span syntax of systemd.time(7), in 64-bit arithmetic.
 */
module Timespan {
  import opened Basics

  const U64: nat := 0x1_0000_0000_0000_0000
  const TS_INVALID: nat := U64 - 1
  const TS_INFINITY: nat := U64 - 2

  const TS_USEC: nat := 1
  const TS_MSEC: nat := 1000
  const TS_SEC: nat := 1_000_000
  const TS_MIN: nat := 60_000_000
  const TS_HR: nat := 3_600_000_000
  const TS_DAY: nat := 86_400_000_000
  const TS_WEEK: nat := 604_800_000_000
  const TS_MONTH: nat := 2_630_016_000_000
  const TS_YEAR: nat := 31_557_600_000_000

  // ----- characters -----

  predicate Blank(c: char) { c == ' ' || c == '\t' || c == '\n' }
  predicate Alpha(c: char) { 'a' <= c <= 'z' || 'A' <= c <= 'Z' }
  predicate Digit(c: char) { '0' <= c <= '9' }

  /** The length of the string without its trailing blanks. */
  function TrimmedLength(s: string): (n: nat)
    ensures n <= |s|
  {
    if s == [] || !Blank(s[|s| - 1]) then |s| else TrimmedLength(s[..|s| - 1])
  }

  // ----- numbers -----

  function DigitValue(c: char): (n: nat) {
    if Digit(c) then (c - '0') as nat else 0
  }

  function Value(digits: string): (n: nat) {
    if digits == [] then 0 else 10 * Value(digits[..|digits| - 1]) + DigitValue(digits[|digits| - 1])
  }

  /** Decimal notation, as printf's %llu gives it. */
  function Decimal(n: nat): (s: string)
    ensures s != [] && All(s, Digit) && Value(s) == n
  {
    var last := ['0' + (n % 10) as char];
    if n < 10 then last
    else
      var s := Decimal(n / 10) + last;
      assert s[..|s| - 1] == Decimal(n / 10);
      s
  }

  /**
   Whether the code gives up on a magnitude: strtoumax saturates and sets errno to
   ERANGE, but errno is not cleared before the call, so with `stale` (errno was
   already ERANGE) the largest representable magnitude is given up on as well.
   */
  predicate OutOfRange(magnitude: nat, stale: bool) {
    magnitude >= U64 || (magnitude == U64 - 1 && stale)
  }

  /** Truncation to 64 bits: what remains after taking away 2^64 as often as possible. */
  function Wrap64(n: nat): (r: nat)
    ensures r < U64
  {
    if n < U64 then n else Wrap64(n - U64)
  }

  /** Unsigned 64-bit multiplication. */
  function Mul64(a: nat, b: nat): (r: nat)
    ensures r < U64
  {
    Wrap64(a * b)
  }

  // ----- units -----

  datatype Unit = Unit(name: string, value: nat)

  /** The meaning of unit names. */
  type Names = map<string, nat>

  /** The names of a table; where a name occurs twice, its first entry counts. */
  function NamesOf(units: seq<Unit>): (m: Names) {
    if units == [] then map[] else NamesOf(units[1..])[units[0].name := units[0].value]
  }

  /** What parser and printer need of a table: distinct alphabetic names, nonzero values, and the unit 1 first. */
  ghost predicate GoodUnits(units: seq<Unit>) {
    && units != [] && units[0].value == 1
    && (forall i :: 0 <= i < |units| ==> units[i].name != [] && All(units[i].name, Alpha))
    && (forall i :: 0 <= i < |units| ==> 1 <= units[i].value < TS_INFINITY)
    && (forall i, j :: 0 <= i < j < |units| ==> units[i].name != units[j].name)
  }

  // ----- parsing -----

  /** A magnitude and the value of its unit in microseconds. */
  datatype Quantity = Quantity(magnitude: nat, unit: nat)

  datatype Scan = Malformed | Scanned(digits: string, unit: nat, rest: string)

  /** One magnitude with its unit, and the blanks around the unit. */
  function ScanTerm(names: Names, s: string): (r: Scan)
    ensures r.Scanned? ==> |r.rest| < |s|
  {
    var (digits, q) := Split(s, Digit);
    var (_, u) := Split(q, Blank);
    var (name, rest) := Split(u, Alpha);
    if digits == [] || name == [] || name !in names then Malformed
    else Scanned(digits, names[name], Split(rest, Blank).1)
  }

  /** The quantities that a string denotes, if it is well formed. */
  function ScanTerms(names: Names, s: string): (r: Option<seq<Quantity>>)
    decreases |s|
  {
    if s == [] then Some([])
    else
      match ScanTerm(names, s)
      case Malformed => None
      case Scanned(digits, unit, rest) =>
        match ScanTerms(names, rest)
        case None => None
        case Some(qs) => Some([Quantity(Value(digits), unit)] + qs)
  }

  /** Adds up quantities the way the code does: products truncated to 64 bits, the sum checked. */
  function Total(qs: seq<Quantity>, ts: nat, stale: bool): (r: nat)
    requires ts <= TS_INVALID
    ensures r <= TS_INVALID
  {
    if qs == [] then ts
    else
      var num := Mul64(qs[0].magnitude, qs[0].unit);
      if OutOfRange(qs[0].magnitude, stale) || TS_INVALID - ts <= num then TS_INVALID
      else Total(qs[1..], ts + num, stale)
  }

  /** timespan_from_str; `stale` says that errno was ERANGE on entry. */
  function FromStr(names: Names, str: string, stale: bool): (r: nat)
    ensures r <= TS_INVALID
  {
    var p := Split(str, Blank).1;
    var s := p[..TrimmedLength(p)];
    var (digits, rest) := Split(s, Digit);
    if s == [] then TS_INVALID
    else if p == "infinity" then TS_INFINITY
    else if digits != [] && OutOfRange(Value(digits), stale) then TS_INVALID
    else if rest == [] then Mul64(Value(digits), TS_SEC)
    else
      match ScanTerms(names, s)
      case None => TS_INVALID
      case Some(qs) => Total(qs, 0, stale)
  }

  // ----- the written form and the documented value -----

  datatype Term = Term(digits: string, gap: string, unit: string, sep: string)

  ghost predicate IsTerm(names: Names, t: Term) {
    && t.digits != [] && All(t.digits, Digit)
    && All(t.gap, Blank) && All(t.sep, Blank)
    && t.unit != [] && All(t.unit, Alpha) && t.unit in names
  }

  ghost predicate AreTerms(names: Names, ts: seq<Term>) {
    forall i :: 0 <= i < |ts| ==> IsTerm(names, ts[i])
  }

  function Body(t: Term): (s: string) {
    t.digits + (t.gap + t.unit)
  }

  function Render(ts: seq<Term>): (s: string) {
    if ts == [] then [] else Body(ts[0]) + (ts[0].sep + Render(ts[1..]))
  }

  function Quantities(names: Names, ts: seq<Term>): (r: seq<Quantity>)
    requires AreTerms(names, ts)
  {
    if ts == [] then []
    else [Quantity(Value(ts[0].digits), names[ts[0].unit])] + Quantities(names, ts[1..])
  }

  /** The exact sum, without bounds. */
  function Sum(qs: seq<Quantity>): (r: nat) {
    if qs == [] then 0 else qs[0].magnitude * qs[0].unit + Sum(qs[1..])
  }

  /** The documented value: the sum, or TS_INVALID if that is too large. */
  function Meaning(qs: seq<Quantity>): (r: nat) {
    if Sum(qs) < TS_INVALID then Sum(qs) else TS_INVALID
  }

  /** The sum of the products, each truncated to 64 bits. */
  function WrappedSum(qs: seq<Quantity>): (r: nat) {
    if qs == [] then 0 else Mul64(qs[0].magnitude, qs[0].unit) + WrappedSum(qs[1..])
  }

  predicate AnyOutOfRange(qs: seq<Quantity>, stale: bool) {
    qs != [] && (OutOfRange(qs[0].magnitude, stale) || AnyOutOfRange(qs[1..], stale))
  }

  predicate NoProductWraps(qs: seq<Quantity>) {
    qs == [] || (qs[0].magnitude * qs[0].unit < U64 && NoProductWraps(qs[1..]))
  }

  // ----- printing -----

  /** The value the printing loop compares with at position `k`; the end of the table counts as TS_INVALID. */
  function ValueAt(units: seq<Unit>, k: nat): (v: nat)
    requires k <= |units|
  {
    if k == |units| then TS_INVALID else units[k].value
  }

  /** Moves down the table to a unit that is not larger than `ts`. */
  function Down(units: seq<Unit>, ts: nat, k: nat): (r: nat)
    requires k <= |units|
    ensures r <= k && (r == 0 || ValueAt(units, r) <= ts)
  {
    if k > 0 && ValueAt(units, k) > ts then Down(units, ts, k - 1) else k
  }

  /** The terms printed for `ts` from table position `k`. */
  function Printed(units: seq<Unit>, ts: nat, k: nat): (r: seq<Term>)
    requires GoodUnits(units) && k <= |units| && ts < TS_INVALID
    decreases ts
  {
    if ts == 0 then []
    else
      var j := Down(units, ts, k);
      assert units[j].value <= ts;
      assert ts % units[j].value < ts;
      [Term(Decimal(ts / units[j].value), "", units[j].name, "")] + Printed(units, ts % units[j].value, j)
  }

  /** The text that timespan_to_str prints for a valid time span. */
  function ToStr(units: seq<Unit>, ts: nat): (s: string)
    requires GoodUnits(units) && ts < TS_INVALID
  {
    if ts == 0 then "0" else if ts == TS_INFINITY then "infinity" else Render(Printed(units, ts, |units|))
  }
}
