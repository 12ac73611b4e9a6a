/**
 Unit files: the two-level map of unit.c, the text that unit_to_byte_array prints
 for it, and what systemd_parse_unit_file makes of a text, following the syntax of
 systemd.syntax(7).
 */
module UnitFile {
  import opened Basics

  type Section = map<string, string>
  type Unit = map<string, Section>

  const MAX_NAME: nat := 254
  const MAX_VALUE: nat := 1022

  // ----- characters -----

  predicate Printable(c: char) { ' ' <= c <= '~' }
  predicate IsBlank(c: char) { c == ' ' || c == '\t' }
  predicate NameChar(c: char) { Printable(c) && c != '[' && c != ']' }
  predicate KeyChar(c: char) { '0' <= c <= '9' || 'a' <= c <= 'z' || 'A' <= c <= 'Z' || c == '-' }
  predicate ValueChar(c: char) { Printable(c) || c == '\t' }
  predicate CommentChar(c: char) { c == '#' || c == ';' }

  // ----- the unit -----

  function Get(u: Unit, section: string, key: string): (r: Option<string>) {
    if section in u && key in u[section] then Some(u[section][key]) else None
  }

  /** unit_update_value for a value that is not NULL. */
  function Update(u: Unit, section: string, key: string, value: string, append: bool): (r: Unit) {
    var s := if section in u then u[section] else map[];
    var v := if append && key in s then s[key] + " " + value else value;
    u[section := s[key := v]]
  }

  // ----- parsing -----

  /** The end of the text, or a NUL where more is required. */
  predicate AtEof(s: string) {
    s == [] || s[0] == '\0'
  }

  /** Skips whole comment lines after a line continuation. */
  function SkipComments(s: string): (r: string)
    ensures |r| <= |s|
    decreases |s|
  {
    if s == [] || !CommentChar(s[0]) then s
    else
      var rest := Split(s, InLine).1;
      if rest == [] then [] else SkipComments(rest[1..])
  }

  /** Appends a character to a value, collapsing runs of spaces. */
  function Push(v: string, c: char): (r: string) {
    if c == ' ' && v != [] && v[|v| - 1] == ' ' then v else v + [c]
  }

  /** Reads a value from the front of `s`, after `v`: the value, and the text from the first character not in it. */
  function ScanValue(s: string, v: string): (r: (string, string))
    ensures |r.1| <= |s|
    decreases |s|
  {
    if s == [] || !ValueChar(s[0]) then (v, s)
    else if s[0] == '\\' && |s| > 1 && s[1] == '\n' then ScanValue(SkipComments(s[2..]), Push(v, ' '))
    else ScanValue(s[1..], Push(v, if s[0] == '\t' then ' ' else s[0]))
  }

  function TrimLast(v: string): (r: string) {
    if v != [] && v[|v| - 1] == ' ' then v[..|v| - 1] else v
  }

  datatype Line = Bad | Next(section: string, u: Unit, rest: string)

  function ParseComment(s: string, section: string, u: Unit): (r: Line)
    requires s != []
    ensures r.Next? ==> |r.rest| < |s|
  {
    var rest := Split(s, InLine).1;
    if AtEof(rest) then Bad else Next(section, u, rest[1..])
  }

  function ParseHeader(s: string, u: Unit): (r: Line)
    requires s != []
    ensures r.Next? ==> |r.rest| < |s|
  {
    var (name, q) := Split(s[1..], NameChar);
    if AtEof(q) || name == [] || q[0] != ']' then Bad
    else if AtEof(q[1..]) || q[1] != '\n' || |name| > MAX_NAME then Bad
    else Next(name, u, q[2..])
  }

  function ParsePair(s: string, section: string, u: Unit): (r: Line)
    requires s != []
    ensures r.Next? ==> |r.rest| < |s|
  {
    var (key, p) := Split(s, KeyChar);
    var q := Split(p, IsBlank).1;
    if AtEof(p) || key == [] || AtEof(q) || q[0] != '=' then Bad
    else
      var w := Split(q[1..], IsBlank).1;
      var (v, r) := ScanValue(w, "");
      var value := TrimLast(v);
      if AtEof(w) || AtEof(r) || |key| > MAX_NAME || |value| > MAX_VALUE || section == "" then Bad
      else Next(section, Update(u, section, key, value, value != ""), r[1..])
  }

  /** What the parser does at the start of a line. */
  function ParseLine(s: string, section: string, u: Unit): (r: Line)
    requires s != []
    ensures r.Next? ==> |r.rest| < |s|
  {
    if s[0] == '\0' then Bad
    else if s[0] == '\n' then Next(section, u, s[1..])
    else if CommentChar(s[0]) then ParseComment(s, section, u)
    else if s[0] == '[' then ParseHeader(s, u)
    else ParsePair(s, section, u)
  }

  function ParseFrom(s: string, section: string, u: Unit): (r: Option<Unit>)
    decreases |s|
  {
    if s == [] then Some(u)
    else
      match ParseLine(s, section, u)
      case Bad => None
      case Next(section', u', rest) => ParseFrom(rest, section', u')
  }

  /** systemd_parse_unit_file. */
  function Parse(s: string): (r: Option<Unit>) {
    ParseFrom(s, "", map[])
  }

  // ----- printing -----

  /** One section as the hash tables enumerate it. */
  datatype Listing = Listing(name: string, keys: seq<string>)

  function PrintPairs(keys: seq<string>, pairs: Section): (s: string)
    requires forall i :: 0 <= i < |keys| ==> keys[i] in pairs
  {
    if keys == [] then "" else keys[0] + ("=" + (pairs[keys[0]] + ("\n" + PrintPairs(keys[1..], pairs))))
  }

  predicate Lists(u: Unit, order: seq<Listing>) {
    forall i :: 0 <= i < |order| ==>
      && order[i].name in u
      && forall j :: 0 <= j < |order[i].keys| ==> order[i].keys[j] in u[order[i].name]
  }

  function Print(u: Unit, order: seq<Listing>): (s: string)
    requires Lists(u, order)
  {
    if order == [] then ""
    else
      "[" + (order[0].name + ("]\n" + (PrintPairs(order[0].keys, u[order[0].name]) + Print(u, order[1..]))))
  }

  /** Every section, and in it every key, is listed exactly once. */
  ghost predicate Enumerates(u: Unit, order: seq<Listing>) {
    && Lists(u, order)
    && (forall i, j :: 0 <= i < j < |order| ==> order[i].name != order[j].name)
    && (forall name :: name in u ==> exists i :: 0 <= i < |order| && order[i].name == name)
    && (forall i :: 0 <= i < |order| ==> EnumeratesKeys(u[order[i].name], order[i].keys))
  }

  ghost predicate EnumeratesKeys(pairs: Section, keys: seq<string>) {
    && (forall i, j :: 0 <= i < j < |keys| ==> keys[i] != keys[j])
    && (forall i :: 0 <= i < |keys| ==> keys[i] in pairs)
    && (forall k :: k in pairs ==> k in keys)
  }

  // ----- canonical units -----

  /** Printable, single spaces between words, none at the ends, no backslash at the end, not too long. */
  ghost predicate Canonical(v: string) {
    && |v| <= MAX_VALUE
    && All(v, Printable)
    && (v != [] ==> v[0] != ' ' && v[|v| - 1] != ' ' && v[|v| - 1] != '\\')
    && (forall i :: 0 < i < |v| && v[i] == ' ' ==> v[i - 1] != ' ')
  }

  ghost predicate LegalName(name: string) {
    name != [] && |name| <= MAX_NAME && All(name, NameChar)
  }

  ghost predicate LegalKey(key: string) {
    key != [] && |key| <= MAX_NAME && All(key, KeyChar)
  }

  ghost predicate CanonicalSection(s: Section) {
    forall k :: k in s ==> LegalKey(k) && Canonical(s[k])
  }

  ghost predicate CanonicalUnit(u: Unit) {
    forall name :: name in u ==> LegalName(name) && CanonicalSection(u[name])
  }
}
