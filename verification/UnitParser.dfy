/**
 systemd_parse_unit_file and unit.c as they run: cursors over the text, fixed buffers
 for section, key and value, and tables that are updated in place.
 */
module UnitParser {
  import opened Basics
  import opened UnitFile

  /** `struct unit`: a table of sections, each a table of pairs. */
  class UnitTable {
    var sections: Unit

    constructor ()
      ensures sections == map[]
    {
      sections := map[];
    }

    /** unit_update_value; returns whether the key already existed. */
    method UpdateValue(section: string, key: string, value: string, append: bool) returns (existed: bool)
      modifies this
      ensures sections == Update(old(sections), section, key, value, append)
      ensures existed == old(Get(sections, section, key).Some?)
    {
      var s: Section := map[];
      if section in sections {
        s := sections[section];
      }
      existed := key in s;
      if append && existed {
        s := s[key := s[key] + " " + value];
      } else {
        s := s[key := value];
      }
      sections := sections[section := s];
    }

    /** unit_to_byte_array, for one enumeration of the tables. */
    method ToText(order: seq<Listing>) returns (ba: string)
      requires Lists(sections, order)
      ensures ba == Print(sections, order)
    {
      ba := "";
      for i := 0 to |order|
        invariant ba + Print(sections, order[i..]) == Print(sections, order)
      {
        assert order[i..][1..] == order[i + 1..];
        ghost var start := ba;
        ba := ba + "[" + order[i].name + "]\n";
        ba := PairsToText(ba, order[i].keys, sections[order[i].name]);
        SectionText(start, order[i].name, PrintPairs(order[i].keys, sections[order[i].name]),
                    Print(sections, order[i + 1..]));
      }
    }
  }

  method PairsToText(start: string, keys: seq<string>, pairs: Section) returns (ba: string)
    requires forall i :: 0 <= i < |keys| ==> keys[i] in pairs
    ensures ba == start + PrintPairs(keys, pairs)
  {
    ba := start;
    for j := 0 to |keys|
      invariant ba + PrintPairs(keys[j..], pairs) == start + PrintPairs(keys, pairs)
    {
      assert keys[j..][1..] == keys[j + 1..];
      PairText(ba, keys[j], pairs[keys[j]], PrintPairs(keys[j + 1..], pairs));
      ba := ba + keys[j] + "=" + pairs[keys[j]] + "\n";
    }
  }

  lemma SectionText(ba: string, name: string, pairs: string, rest: string)
    ensures ((ba + "[" + name + "]\n") + pairs) + rest == ba + ("[" + (name + ("]\n" + (pairs + rest))))
  {
  }

  lemma PairText(ba: string, key: string, value: string, rest: string)
    ensures (ba + key + "=" + value + "\n") + rest == ba + (key + ("=" + (value + ("\n" + rest))))
  {
  }

  // ----- parsing -----

  predicate NotNul(c: char) { c != '\0' }

  /** The C string in a buffer: what stands before the first NUL. */
  function CString(buf: seq<char>): (s: string) {
    Split(buf, NotNul).0
  }

  lemma CStringOf(buf: seq<char>, n: nat)
    requires n < |buf| && buf[n] == '\0' && All(buf[..n], NotNul)
    ensures CString(buf) == buf[..n]
  {
    assert buf == buf[..n] + buf[n..];
    Cut(buf[..n], buf[n..], NotNul);
  }

  /** The text from a cursor on; the cursor may have run past the end. */
  function From(txt: string, i: nat): (s: string) {
    if i <= |txt| then txt[i..] else ""
  }

  /** Copies characters that satisfy `f` into a buffer, as many as fit, and counts them all. */
  method ReadName(txt: string, from: nat, buf: array<char>, f: char -> bool) returns (n: nat, to: nat)
    requires from <= |txt|
    modifies buf
    ensures from <= to <= |txt| && n == to - from
    ensures Split(txt[from..], f) == (txt[from..to], txt[to..])
    ensures n <= buf.Length ==> buf[..n] == txt[from..to]
  {
    to := ScanWhile(txt, from, |txt|, f);
    assert txt[from..|txt|] == txt[from..] && txt[to..|txt|] == txt[to..];
    n := 0;
    while n < to - from
      invariant 0 <= n <= to - from
      invariant n <= buf.Length ==> buf[..n] == txt[from..from + n]
    {
      if n < buf.Length {
        buf[n] := txt[from + n];
        assert buf[..n + 1] == txt[from..from + n] + [txt[from + n]];
      }
      n := n + 1;
    }
  }

  /** The comment lines after a continuation; the cursor goes from the end of one line to the end of another. */
  method SkipCommentLines(txt: string, from: nat) returns (r: nat)
    requires from < |txt|
    ensures from <= r <= |txt|
    ensures From(txt, r + 1) == SkipComments(txt[from + 1..])
  {
    hide SkipComments, Split;
    r := from;
    while r + 1 < |txt| && CommentChar(txt[r + 1])
      invariant from <= r <= |txt|
      invariant SkipComments(From(txt, r + 1)) == SkipComments(txt[from + 1..])
      decreases |txt| - r
    {
      var line := r + 1;
      r := ScanWhile(txt, line, |txt|, InLine);
      SkipOneComment(txt, line, r);
    }
    NoMoreComments(txt, r);
  }

  lemma SkipOneComment(txt: string, line: nat, r: nat)
    requires line < |txt| && CommentChar(txt[line]) && line <= r <= |txt|
    requires Split(txt[line..|txt|], InLine) == (txt[line..r], txt[r..|txt|])
    ensures r > line && SkipComments(txt[line..]) == SkipComments(From(txt, r + 1))
  {
    assert txt[line..|txt|] == txt[line..] && txt[r..|txt|] == txt[r..];
    assert r < |txt| ==> txt[r..][1..] == txt[r + 1..];
    SplitFacts(txt[line..], InLine);
    hide Split;
  }

  lemma NoMoreComments(txt: string, r: nat)
    requires r <= |txt| && !(r + 1 < |txt| && CommentChar(txt[r + 1]))
    ensures SkipComments(From(txt, r + 1)) == From(txt, r + 1)
  {
  }

  const SIZE: nat := 1024

  /** The value buffer holds the normalized text while it fits; once it does not, the text is too long as well. */
  ghost predicate Buffered(buf: seq<char>, v: nat, acc: string)
    requires |buf| == SIZE
  {
    if v < SIZE then acc == buf[..v] else |acc| >= SIZE
  }

  /** One character of a value, or the space that a continuation stands for. */
  method PutChar(buf: array<char>, v: nat, c: char, ghost acc: string) returns (n: nat)
    requires buf.Length == SIZE && Buffered(buf[..], v, acc)
    modifies buf
    ensures Buffered(buf[..], n, Push(acc, c))
  {
    if c == ' ' && v > 0 && v < SIZE && buf[v - 1] == ' ' {
      return v;
    }
    if v < SIZE {
      buf[v] := c;
      assert buf[..v + 1] == buf[..v] + [c];
    }
    n := v + 1;
  }

  /** The value loop; the cursor may end up one past the end of the text. */
  method ReadValue(txt: string, q: nat, buf: array<char>) returns (v: nat, r: nat, ghost acc: string)
    requires q <= |txt| && buf.Length == SIZE
    modifies buf
    ensures q <= r && ScanValue(txt[q..], "") == (acc, From(txt, r)) && Buffered(buf[..], v, acc)
  {
    hide ScanValue, SkipComments, Buffered, Push;
    v, r, acc := 0, q, "";
    assert From(txt, q) == txt[q..];
    hide From;
    EmptyBuffer(buf[..]);
    while r < |txt| && ValueChar(txt[r])
      invariant q <= r <= |txt| + 1
      invariant ScanValue(txt[q..], "") == ScanValue(From(txt, r), acc)
      invariant Buffered(buf[..], v, acc)
      decreases |txt| + 1 - r
    {
      ValueStep(txt, r, acc);
      var ch := txt[r];
      if ch == '\\' && r + 1 < |txt| && txt[r + 1] == '\n' {
        ch := ' ';
        r := SkipCommentLines(txt, r + 1);
      }
      if ch == '\t' {
        ch := ' ';
      }
      v := PutChar(buf, v, ch, acc);
      acc := Push(acc, ch);
      r := r + 1;
    }
    ValueEnd(txt, r, acc);
  }

  lemma EmptyBuffer(buf: seq<char>)
    requires |buf| == SIZE
    ensures Buffered(buf, 0, "")
  {
  }

  lemma ValueEnd(txt: string, r: nat, acc: string)
    requires r <= |txt| + 1 && !(r < |txt| && ValueChar(txt[r]))
    ensures ScanValue(From(txt, r), acc) == (acc, From(txt, r))
  {
  }

  lemma ValueStep(txt: string, r: nat, acc: string)
    requires r < |txt| && ValueChar(txt[r])
    ensures ScanValue(From(txt, r), acc) ==
      if txt[r] == '\\' && r + 1 < |txt| && txt[r + 1] == '\n'
      then ScanValue(SkipComments(txt[r + 2..]), Push(acc, ' '))
      else ScanValue(From(txt, r + 1), Push(acc, if txt[r] == '\t' then ' ' else txt[r]))
  {
    var s := txt[r..];
    assert s[0] == txt[r] && s[1..] == txt[r + 1..];
    assert |s| > 1 ==> s[1] == txt[r + 1] && s[2..] == txt[r + 2..];
  }

  /** Whether the parser is at the end of its input where it needs more. */
  predicate Eof(txt: string, i: nat) {
    i >= |txt| || txt[i] == '\0'
  }

  /** A section header at `cur`: where the next line starts, or nothing on an error. */
  method ReadHeader(txt: string, cur: nat, section: array<char>, ghost u: Unit) returns (next: Option<nat>)
    requires cur < |txt| && section.Length == 256
    modifies section
    ensures next.None? ==> ParseHeader(txt[cur..], u) == Bad
    ensures next.Some? ==> cur < next.value <= |txt|
    ensures next.Some? ==> ParseHeader(txt[cur..], u) == Next(CString(section[..]), u, txt[next.value..])
  {
    hide Split, CString;
    var s, q := ReadName(txt, cur + 1, section, NameChar);
    SplitFacts(txt[cur + 1..], NameChar);
    assert txt[cur..][1..] == txt[cur + 1..];
    assert q < |txt| ==> txt[q..][0] == txt[q] && txt[q..][1..] == txt[q + 1..];
    assert q + 1 < |txt| ==> txt[q..][1] == txt[q + 1] && txt[q..][2..] == txt[q + 2..];
    if Eof(txt, q) || s == 0 || txt[q] != ']' {
      return None;
    }
    var r := q + 1;
    if Eof(txt, r) || txt[r] != '\n' {
      return None;
    }
    r := r + 1;
    if s >= section.Length - 1 {
      return None;
    }
    section[s] := '\0';
    assert section[..s] == txt[cur + 1..q];
    CStringOf(section[..], s);
    next := Some(r);
  }

  /** The key of a key-value line, and where its value starts. */
  method ReadKey(txt: string, cur: nat, key: array<char>) returns (k: nat, q: Option<nat>)
    requires cur < |txt| && key.Length == 256
    modifies key
    ensures var (name, p) := Split(txt[cur..], KeyChar);
      var e := Split(p, IsBlank).1;
      && k == |name| && (k <= key.Length ==> key[..k] == name) && All(name, KeyChar)
      && (q.None? ==> AtEof(p) || name == [] || AtEof(e) || e[0] != '=' || AtEof(Split(e[1..], IsBlank).1))
      && (q.Some? ==> !AtEof(p) && name != [] && !AtEof(e) && e[0] == '=')
      && (q.Some? ==> cur < q.value < |txt| && Split(e[1..], IsBlank).1 == txt[q.value..] && !AtEof(txt[q.value..]))
  {
    hide Split;
    var p;
    k, p := ReadName(txt, cur, key, KeyChar);
    SplitFacts(txt[cur..], KeyChar);
    assert p < |txt| ==> txt[p..][0] == txt[p];
    var e := ScanWhile(txt, p, |txt|, IsBlank);
    assert txt[p..|txt|] == txt[p..] && txt[e..|txt|] == txt[e..];
    assert e < |txt| ==> txt[e..][0] == txt[e] && txt[e..][1..] == txt[e + 1..];
    if Eof(txt, p) || k == 0 || Eof(txt, e) || txt[e] != '=' {
      return k, None;
    }
    var v := ScanWhile(txt, e + 1, |txt|, IsBlank);
    assert txt[e + 1..|txt|] == txt[e + 1..] && txt[v..|txt|] == txt[v..];
    assert v < |txt| ==> txt[v..][0] == txt[v];
    if Eof(txt, v) {
      return k, None;
    }
    q := Some(v);
  }

  /** A value from `q` on: its trimmed length in the buffer, and the end of its line. */
  method ReadTrimmed(txt: string, q: nat, value: array<char>) returns (v: nat, r: nat)
    requires q <= |txt| && value.Length == SIZE
    modifies value
    ensures var (x, rest) := ScanValue(txt[q..], "");
      && q <= r && rest == From(txt, r)
      && (v > MAX_VALUE <==> |TrimLast(x)| > MAX_VALUE)
      && (v <= MAX_VALUE ==> value[..v] == TrimLast(x))
  {
    hide ScanValue;
    ghost var acc;
    v, r, acc := ReadValue(txt, q, value);
    if v > 0 && v < value.Length && value[v - 1] == ' ' {
      v := v - 1;
      assert value[..v] == value[..v + 1][..v];
    }
  }

  /** A key-value pair at `cur`, stored in the unit: where the next line starts, or nothing on an error. */
  method ReadPair(txt: string, cur: nat, section: array<char>, key: array<char>, value: array<char>, u: UnitTable)
    returns (next: Option<nat>)
    requires cur < |txt| && section.Length == 256 && key.Length == 256 && value.Length == SIZE
    requires section != key && section != value && key != value
    modifies key, value, u
    ensures var line := ParsePair(txt[cur..], CString(section[..]), old(u.sections));
      && (next.None? ==> line == Bad && u.sections == old(u.sections))
      && (next.Some? ==> cur < next.value <= |txt| && line == Next(CString(section[..]), u.sections, txt[next.value..]))
  {
    hide Split, ScanValue, TrimLast, CString, Update;
    ghost var name := Split(txt[cur..], KeyChar).0;
    var k, q := ReadKey(txt, cur, key);
    if q.None? {
      return None;
    }
    ghost var keyText := key[..];
    var v, r := ReadTrimmed(txt, q.value, value);
    assert key[..] == keyText;
    assert r < |txt| ==> txt[r..][0] == txt[r] && txt[r..][1..] == txt[r + 1..];
    if Eof(txt, r) || k >= key.Length - 1 || v >= value.Length - 1 {
      return None;
    }
    assert key[..k] == keyText[..k] == name;
    EmptySection(section[..]);
    if section[0] == '\0' {
      return None;
    }
    var sectionName := ToCString(section);
    var _ := u.UpdateValue(sectionName, key[..k], value[..v], v > 0);
    next := Some(r + 1);
  }

  lemma EmptySection(buf: seq<char>)
    requires buf != []
    ensures CString(buf) == "" <==> buf[0] == '\0'
  {
  }

  method ToCString(buf: array<char>) returns (s: string)
    ensures s == CString(buf[..])
  {
    var n := ScanWhile(buf[..], 0, buf.Length, NotNul);
    assert buf[..][0..buf.Length] == buf[..] && buf[..][0..n] == buf[..n];
    s := buf[..n];
  }

  /** systemd_parse_unit_file. */
  method ParseUnitFile(txt: string) returns (u: UnitTable?)
    ensures u == null <==> Parse(txt).None?
    ensures u != null ==> fresh(u) && Parse(txt) == Some(u.sections)
  {
    var section, key, value := new char[256], new char[256], new char[SIZE];
    section[0] := '\0';
    var table := new UnitTable();
    var cur: nat := 0;
    EmptySection(section[..]);
    assert txt[0..] == txt;
    while cur < |txt|
      invariant 0 <= cur <= |txt|
      invariant fresh(section) && fresh(key) && fresh(value) && fresh(table)
      invariant section != key && section != value && key != value
      invariant ParseFrom(txt[cur..], CString(section[..]), table.sections) == Parse(txt)
    {
      hide ParseFrom, ParseLine, CString;
      LineStep(txt, cur, CString(section[..]), table.sections);
      var next := ReadLine(txt, cur, section, key, value, table);
      if next.None? {
        return null;
      }
      cur := next.value;
    }
    u := table;
  }

  lemma LineStep(txt: string, cur: nat, section: string, u: Unit)
    requires cur < |txt|
    ensures ParseFrom(txt[cur..], section, u) ==
      match ParseLine(txt[cur..], section, u)
      case Bad => None
      case Next(section', u', rest) => ParseFrom(rest, section', u')
  {
  }

  /** One round of the parser's loop. */
  method ReadLine(txt: string, cur: nat, section: array<char>, key: array<char>, value: array<char>, u: UnitTable)
    returns (next: Option<nat>)
    requires cur < |txt| && section.Length == 256 && key.Length == 256 && value.Length == SIZE
    requires section != key && section != value && key != value
    modifies section, key, value, u
    ensures var line := ParseLine(txt[cur..], old(CString(section[..])), old(u.sections));
      && (next.None? ==> line == Bad)
      && (next.Some? ==> cur < next.value <= |txt| && line == Next(CString(section[..]), u.sections, txt[next.value..]))
  {
    hide Split, CString, ParseHeader, ParsePair;
    assert txt[cur..][0] == txt[cur] && txt[cur..][1..] == txt[cur + 1..];
    if txt[cur] == '\0' {
      next := None;
    } else if txt[cur] == '\n' {
      next := Some(cur + 1);
    } else if CommentChar(txt[cur]) {
      var p := ScanWhile(txt, cur, |txt|, InLine);
      assert txt[cur..|txt|] == txt[cur..] && txt[p..|txt|] == txt[p..];
      assert p < |txt| ==> txt[p..][0] == txt[p] && txt[p..][1..] == txt[p + 1..];
      next := if Eof(txt, p) then None else Some(p + 1);
    } else if txt[cur] == '[' {
      next := ReadHeader(txt, cur, section, u.sections);
    } else {
      next := ReadPair(txt, cur, section, key, value, u);
    }
  }
}
