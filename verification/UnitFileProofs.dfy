/** Printing and parsing of unit files are inverse on canonical units, and line continuations are spaces. */
module UnitFileProofs {
  import opened Basics
  import opened UnitFile

  // ----- values -----

  /** No two spaces in a row. */
  ghost predicate SingleSpaced(v: string) {
    forall i :: 0 < i < |v| && v[i] == ' ' ==> v[i - 1] != ' '
  }

  /** A value without odd spacing is read as it stands. */
  lemma {:induction false} ScanPlain(v: string, rest: string, acc: string)
    requires All(v, Printable) && SingleSpaced(acc + v)
    requires rest != [] && rest[0] == '\n' && (v != [] ==> v[|v| - 1] != '\\')
    ensures ScanValue(v + rest, acc) == (acc + v, rest)
  {
    if v == [] {
      assert v + rest == rest && acc + v == acc;
    } else {
      var s := v + rest;
      assert s[0] == v[0] && s[1..] == v[1..] + rest;
      assert s[1] == if |v| > 1 then v[1] else '\n';
      assert acc + v == (acc + [v[0]]) + v[1..];
      assert acc != [] ==> (acc + v)[|acc| - 1] == acc[|acc| - 1] && (acc + v)[|acc|] == v[0];
      assert Push(acc, v[0]) == acc + [v[0]];
      ScanPlain(v[1..], rest, acc + [v[0]]);
    }
  }

  // ----- lines -----

  lemma HeaderLine(name: string, rest: string, section: string, u: Unit)
    requires LegalName(name)
    ensures ParseLine("[" + (name + ("]\n" + rest)), section, u) == Next(name, u, rest)
  {
    var q := "]\n" + rest;
    var s := "[" + (name + q);
    assert s[1..] == name + q && s[0] == '[';
    Cut(name, q, NameChar);
    hide Split;
    assert q[0] == ']' && q[1] == '\n' && q[1..][0] == '\n' && q[2..] == rest;
  }

  /** What remains of a key-value line once key, blanks and equals sign are read. */
  function AfterValue(v: string, r: string, key: string, section: string, u: Unit): (next: Line) {
    var value := TrimLast(v);
    if AtEof(r) || |key| > MAX_NAME || |value| > MAX_VALUE || section == "" then Bad
    else Next(section, Update(u, section, key, value, value != ""), r[1..])
  }

  lemma PairShape(key: string, b1: string, b2: string, w: string, section: string, u: Unit)
    requires key != [] && All(key, KeyChar) && All(b1, IsBlank) && All(b2, IsBlank)
    requires w != [] && !IsBlank(w[0]) && w[0] != '\0'
    ensures var (v, r) := ScanValue(w, "");
      ParseLine(key + (b1 + ("=" + (b2 + w))), section, u) == AfterValue(v, r, key, section, u)
  {
    hide Split, ScanValue, TrimLast, Update;
    var t := b2 + w;
    var q := "=" + t;
    var p := b1 + q;
    var s := key + p;
    assert KeyChar(key[0]) && s[0] == key[0];
    assert p[0] == if b1 == [] then '=' else b1[0];
    Cut(key, p, KeyChar);
    Cut(b1, q, IsBlank);
    assert q[0] == '=' && q[1..] == t;
    Cut(b2, w, IsBlank);
  }

  lemma PairLine(key: string, value: string, rest: string, section: string, u: Unit)
    requires LegalKey(key) && Canonical(value) && section != ""
    ensures ParseLine(key + ("=" + (value + ("\n" + rest))), section, u)
         == Next(section, Update(u, section, key, value, value != ""), rest)
  {
    hide ParseLine, ScanValue, Update;
    var end := "\n" + rest;
    var w := value + end;
    assert w[0] == if value == [] then '\n' else value[0];
    PairShape(key, "", "", w, section, u);
    assert "" + w == w && "" + ("=" + w) == "=" + w && "" + value == value;
    ScanPlain(value, end, "");
    assert end[0] == '\n' && end[1..] == rest;
  }

  lemma ParseStep(s: string, section: string, u: Unit, next: Line)
    requires s != [] && next.Next? && ParseLine(s, section, u) == next
    ensures ParseFrom(s, section, u) == ParseFrom(next.rest, next.section, next.u)
  {
  }

  // ----- the round trip -----

  /** The unit with the first `n` listed keys of one section added. */
  function WithPairs(u: Unit, name: string, keys: seq<string>, pairs: Section): (r: Unit)
    requires forall i :: 0 <= i < |keys| ==> keys[i] in pairs
    decreases |keys|
  {
    if keys == [] then u
    else WithPairs(Update(u, name, keys[0], pairs[keys[0]], pairs[keys[0]] != ""), name, keys[1..], pairs)
  }

  lemma {:induction false} ParsePairs(keys: seq<string>, pairs: Section, rest: string, name: string, u: Unit)
    requires CanonicalSection(pairs) && name != ""
    requires forall i :: 0 <= i < |keys| ==> keys[i] in pairs
    ensures ParseFrom(PrintPairs(keys, pairs) + rest, name, u) == ParseFrom(rest, name, WithPairs(u, name, keys, pairs))
    decreases |keys|
  {
    if keys == [] {
      assert PrintPairs(keys, pairs) + rest == rest;
    } else {
      var key := keys[0];
      var value := pairs[key];
      var tail := PrintPairs(keys[1..], pairs) + rest;
      PairLine(key, value, tail, name, u);
      var s := key + ("=" + (value + ("\n" + tail)));
      assert PrintPairs(keys, pairs) + rest == s by { PairText(key, value, PrintPairs(keys[1..], pairs), rest); }
      hide ParseLine;
      ParseStep(s, name, u, Next(name, Update(u, name, key, value, value != ""), tail));
      ParsePairs(keys[1..], pairs, rest, name, Update(u, name, key, value, value != ""));
    }
  }

  lemma PairText(key: string, value: string, pairs: string, rest: string)
    ensures (key + ("=" + (value + ("\n" + pairs)))) + rest == key + ("=" + (value + ("\n" + (pairs + rest))))
  {
  }

  /** The unit with the listed sections added one after the other. */
  function WithSections(r: Unit, u: Unit, order: seq<Listing>): (w: Unit)
    requires Lists(u, order)
    decreases |order|
  {
    if order == [] then r
    else WithSections(WithPairs(r, order[0].name, order[0].keys, u[order[0].name]), u, order[1..])
  }

  lemma {:induction false} ParsePrinted(u: Unit, order: seq<Listing>, section: string, r: Unit)
    requires CanonicalUnit(u) && Lists(u, order)
    ensures ParseFrom(Print(u, order), section, r) == Some(WithSections(r, u, order))
    decreases |order|
  {
    if order != [] {
      var name, keys := order[0].name, order[0].keys;
      var pairs := u[name];
      var tail := Print(u, order[1..]);
      var body := PrintPairs(keys, pairs) + tail;
      assert LegalName(name) && CanonicalSection(pairs);
      HeaderLine(name, body, section, r);
      hide ParseLine, CanonicalSection;
      ParseStep(Print(u, order), section, r, Next(name, r, body));
      ParsePairs(keys, pairs, tail, name, r);
      ParsePrinted(u, order[1..], name, WithPairs(r, name, keys, pairs));
    }
  }

  /** A key that is not there yet is simply added. */
  lemma UpdateAdds(u: Unit, name: string, key: string, value: string, append: bool)
    requires name in u ==> key !in u[name]
    ensures Update(u, name, key, value, append) == u[name := SectionOf(u, name)[key := value]]
  {
  }

  function SectionOf(u: Unit, name: string): (s: Section) {
    if name in u then u[name] else map[]
  }

  /** The listed part of a section. */
  function Chosen(keys: seq<string>, pairs: Section): (s: Section)
    requires forall i :: 0 <= i < |keys| ==> keys[i] in pairs
  {
    map k | k in pairs && k in keys :: pairs[k]
  }

  lemma ChosenCons(base: Section, key: string, rest: seq<string>, pairs: Section)
    requires forall i :: 0 <= i < |rest| ==> rest[i] in pairs
    requires key in pairs && key !in rest
    ensures base[key := pairs[key]] + Chosen(rest, pairs) == base + Chosen([key] + rest, pairs)
  {
  }

  /** Adding distinct new keys to a section adds exactly their pairs and leaves the other sections alone. */
  lemma {:induction false} WithPairsIs(u: Unit, name: string, keys: seq<string>, pairs: Section)
    requires forall i :: 0 <= i < |keys| ==> keys[i] in pairs
    requires NoDup(keys) && forall i :: 0 <= i < |keys| ==> keys[i] !in SectionOf(u, name)
    ensures keys != [] ==> WithPairs(u, name, keys, pairs) == u[name := SectionOf(u, name) + Chosen(keys, pairs)]
    decreases |keys|
  {
    if keys != [] {
      var key, rest := keys[0], keys[1..];
      assert keys == [key] + rest && key !in rest;
      var base, u' := SectionOf(u, name), Update(u, name, key, pairs[key], pairs[key] != "");
      UpdateAdds(u, name, key, pairs[key], pairs[key] != "");
      ChosenCons(base, key, rest, pairs);
      var more := base[key := pairs[key]];
      NowHas(u, name, more);
      hide Update, Chosen, SectionOf;
      assert forall i :: 0 <= i < |rest| ==> rest[i] == keys[i + 1] && rest[i] != key;
      WithPairsIs(u', name, rest, pairs);
      Overwrites(u, name, more, more + Chosen(rest, pairs));
      if rest == [] {
        ChosenNone(more, pairs);
      }
    }
  }

  lemma NowHas(u: Unit, name: string, s: Section)
    ensures SectionOf(u[name := s], name) == s
  {
  }

  lemma Overwrites(u: Unit, name: string, a: Section, b: Section)
    ensures u[name := a][name := b] == u[name := b]
  {
  }

  lemma ChosenNone(base: Section, pairs: Section)
    ensures base + Chosen([], pairs) == base
  {
  }

  lemma WithWholeSection(r: Unit, name: string, keys: seq<string>, pairs: Section)
    requires EnumeratesKeys(pairs, keys) && name !in r
    ensures WithPairs(r, name, keys, pairs) == if pairs == map[] then r else r[name := pairs]
  {
    WithPairsIs(r, name, keys, pairs);
    if keys == [] {
      assert pairs == map[];
    } else {
      var k := keys[0];
      assert k in pairs;
      assert map[] + Chosen(keys, pairs) == pairs;
    }
  }

  /** A unit without its empty sections. */
  function Populated(u: Unit): (r: Unit) {
    map name | name in u && u[name] != map[] :: u[name]
  }

  function SectionNames(order: seq<Listing>): (r: set<string>) {
    set i | 0 <= i < |order| :: order[i].name
  }

  /** Its listed sections. */
  function Listed(u: Unit, names: set<string>): (r: Unit) {
    map name | name in u && name in names && u[name] != map[] :: u[name]
  }

  lemma NamesCons(order: seq<Listing>)
    requires order != []
    ensures SectionNames(order) == {order[0].name} + SectionNames(order[1..])
  {
    var tail := order[1..];
    assert forall i :: 0 <= i < |tail| ==> tail[i] == order[i + 1];
    forall n | n in SectionNames(order) ensures n in {order[0].name} + SectionNames(tail) {
      var i :| 0 <= i < |order| && order[i].name == n;
      assert i > 0 ==> tail[i - 1].name == n;
    }
    forall n | n in SectionNames(tail) ensures n in SectionNames(order) {
      var i :| 0 <= i < |tail| && tail[i].name == n;
      assert order[i + 1].name == n;
    }
  }

  lemma ListedCons(r: Unit, u: Unit, name: string, names: set<string>)
    requires name in u && name !in r && name !in names
    ensures (if u[name] == map[] then r else r[name := u[name]]) + Listed(u, names) == r + Listed(u, {name} + names)
  {
  }

  lemma {:induction false} WithSectionsIs(r: Unit, u: Unit, order: seq<Listing>)
    requires Lists(u, order)
    requires forall i, j :: 0 <= i < j < |order| ==> order[i].name != order[j].name
    requires forall i :: 0 <= i < |order| ==> order[i].name !in r && EnumeratesKeys(u[order[i].name], order[i].keys)
    ensures WithSections(r, u, order) == r + Listed(u, SectionNames(order))
    decreases |order|
  {
    if order == [] {
      assert Listed(u, SectionNames(order)) == map[];
    } else {
      var name, tail := order[0].name, order[1..];
      WithWholeSection(r, name, order[0].keys, u[name]);
      NamesCons(order);
      FirstOnly(order);
      ListedCons(r, u, name, SectionNames(tail));
      var r' := WithPairs(r, name, order[0].keys, u[name]);
      hide WithPairs, EnumeratesKeys, SectionNames, Listed;
      WithSectionsIs(r', u, tail);
    }
  }

  lemma FirstOnly(order: seq<Listing>)
    requires order != [] && forall i, j :: 0 <= i < j < |order| ==> order[i].name != order[j].name
    ensures order[0].name !in SectionNames(order[1..])
  {
    var tail := order[1..];
    assert forall i :: 0 <= i < |tail| ==> tail[i] == order[i + 1];
  }

  /**
   Parsing what is printed for a canonical unit, in whatever order its tables enumerate
   sections and keys, gives the unit back, but for sections without keys.
   */
  lemma UnitRoundTrip(u: Unit, order: seq<Listing>)
    requires CanonicalUnit(u) && Enumerates(u, order)
    ensures Parse(Print(u, order)) == Some(Populated(u))
    ensures Parse(Print(u, order)) == Some(u) <==> forall name :: name in u ==> u[name] != map[]
  {
    hide ParseFrom, Print, WithSections, CanonicalUnit;
    ParsePrinted(u, order, "", map[]);
    AllSectionsListed(u, order);
    PopulatedIsAll(u);
  }

  lemma AllSectionsListed(u: Unit, order: seq<Listing>)
    requires Enumerates(u, order)
    ensures WithSections(map[], u, order) == Populated(u)
  {
    WithSectionsIs(map[], u, order);
    hide WithSections, EnumeratesKeys;
    forall name | name in u ensures name in SectionNames(order) {
    }
    assert map[] + Listed(u, SectionNames(order)) == Populated(u);
  }

  lemma PopulatedIsAll(u: Unit)
    ensures Populated(u) == u <==> forall name :: name in u ==> u[name] != map[]
  {
    assert (forall name :: name in u ==> u[name] != map[]) ==> Populated(u) == u;
  }

  // ----- which values survive -----

  /** What the scanner produces: printable, single spaced. */
  lemma {:induction false} ScanNormalizes(s: string, acc: string)
    requires All(acc, Printable) && SingleSpaced(acc)
    ensures var v := ScanValue(s, acc).0;
      All(v, Printable) && SingleSpaced(v) && acc <= v
    decreases |s|
  {
    if s != [] && ValueChar(s[0]) {
      var continued := s[0] == '\\' && |s| > 1 && s[1] == '\n';
      var c := if continued || s[0] == '\t' then ' ' else s[0];
      var v := Push(acc, c);
      assert All(v, Printable) && SingleSpaced(v) && acc <= v;
      if continued {
        ScanNormalizes(SkipComments(s[2..]), v);
      } else {
        ScanNormalizes(s[1..], v);
      }
    }
  }

  /** On one line, the scan stops at its end and makes nothing longer; a final backslash makes it run past the end. */
  lemma {:induction false} ScanOneLine(v: string, acc: string)
    requires All(v, ValueChar)
    ensures var (x, r) := ScanValue(v + "\n", acc);
      && |x| <= |acc| + |v|
      && r == if v != [] && v[|v| - 1] == '\\' then "" else "\n"
  {
    var s := v + "\n";
    if v == [] {
      assert s == "\n";
    } else {
      assert s[0] == v[0] && s[1] == if |v| > 1 then v[1] else '\n';
      if |v| == 1 && v[0] == '\\' {
        assert s[2..] == "" && SkipComments(s[2..]) == "";
        assert ScanValue("", Push(acc, ' ')) == (Push(acc, ' '), "");
      } else {
        assert |v| > 1 ==> ValueChar(v[1]);
        assert s[1..] == v[1..] + "\n";
        ScanOneLine(v[1..], Push(acc, if v[0] == '\t' then ' ' else v[0]));
      }
    }
  }

  lemma TrimmedIsCanonical(x: string)
    requires All(x, Printable) && SingleSpaced(x)
    ensures var v := TrimLast(x);
      All(v, Printable) && SingleSpaced(v) && (v != [] ==> v[|v| - 1] != ' ')
  {
  }

  /** What the parser makes of "key=" and a value with blanks in front. */
  lemma ReadBack(key: string, b: string, w: string, section: string)
    requires LegalKey(key) && section != "" && All(b, IsBlank)
    requires All(w, ValueChar) && (w != [] ==> !IsBlank(w[0]))
    ensures var (x, r) := ScanValue(w + "\n", "");
      var value := TrimLast(x);
      ParseFrom(key + ("=" + (b + (w + "\n"))), section, map[])
      == if r == "" || |value| > MAX_VALUE then None else Some(map[section := map[key := value]])
  {
    hide ParseLine, ScanValue, ParseFrom, Update, TrimLast;
    var line := w + "\n";
    assert line[0] == if w == [] then '\n' else w[0];
    PairShape(key, "", b, line, section, map[]);
    ScanOneLine(w, "");
    var (x, r) := ScanValue(line, "");
    var s := key + ("=" + (b + line));
    assert "" + ("=" + (b + line)) == "=" + (b + line);
    OneLine(s, section, AfterValue(x, r, key, section, map[]));
    var value := TrimLast(x);
    UpdateAdds(map[], section, key, value, value != "");
  }

  /** The key-value line "key=v", for any v that the scanner can read. */
  lemma OneValue(key: string, v: string, section: string)
    requires LegalKey(key) && section != "" && All(v, ValueChar)
    ensures ParseFrom(key + ("=" + (v + "\n")), section, map[]) == Some(map[section := map[key := v]]) ==> Canonical(v)
  {
    hide ParseLine, ScanValue, Split, ParseFrom;
    var (b, w) := Split(v, IsBlank);
    SplitFacts(v, IsBlank);
    assert forall i :: 0 <= i < |w| ==> w[i] == v[|b| + i];
    ReadBack(key, b, w, section);
    assert v + "\n" == b + (w + "\n");
    ScanOneLine(w, "");
    ScanNormalizes(w + "\n", "");
    var (x, r) := ScanValue(w + "\n", "");
    TrimmedIsCanonical(x);
    var value := TrimLast(x);
    if r != "" && |value| <= MAX_VALUE {
      SameEntry(section, key, value, v);
    }
  }

  lemma SameEntry(section: string, key: string, a: string, b: string)
    ensures map[section := map[key := a]] == map[section := map[key := b]] ==> a == b
  {
    var m, n := map[section := map[key := a]], map[section := map[key := b]];
    assert m[section][key] == a && n[section][key] == b;
  }

  lemma OneLine(s: string, section: string, next: Line)
    requires s != [] && ParseLine(s, section, map[]) == next
    ensures next.Bad? ==> ParseFrom(s, section, map[]).None?
    ensures next.Next? && next.rest == "" ==> ParseFrom(s, section, map[]) == Some(next.u)
  {
  }

  /** Among the values the scanner can read, exactly the canonical ones survive printing and parsing. */
  lemma ValueSurvives(section: string, key: string, v: string)
    requires LegalName(section) && LegalKey(key) && All(v, ValueChar)
    ensures var u: Unit := map[section := map[key := v]];
      Parse(Print(u, [Listing(section, [key])])) == Some(u) <==> Canonical(v)
  {
    var u: Unit := map[section := map[key := v]];
    var order := [Listing(section, [key])];
    assert u[section] == map[key := v] && key in u[section];
    if Canonical(v) {
      assert EnumeratesKeys(u[section], order[0].keys);
      assert order[0].name == section;
      UnitRoundTrip(u, order);
    } else {
      var body := key + ("=" + (v + "\n"));
      OnePairText(section, key, v);
      HeaderLine(section, body, "", map[]);
      ParseStep(Print(u, order), "", map[], Next(section, map[], body));
      OneValue(key, v, section);
    }
  }

  lemma OnePairText(section: string, key: string, v: string)
    ensures var u: Unit := map[section := map[key := v]];
      Print(u, [Listing(section, [key])]) == "[" + (section + ("]\n" + (key + ("=" + (v + "\n")))))
  {
    var pairs: Section := map[key := v];
    assert PrintPairs([key], pairs) == key + ("=" + (v + ("\n" + PrintPairs([], pairs))));
    assert "\n" + "" == "\n";
  }

  /**
   A unit that was parsed need not survive: an empty assignment followed by another one for
   the same key leaves a leading space, which the next parse drops.
   */
  lemma ResetThenAppendIsLost(section: string, key: string, v: string)
    requires LegalName(section) && LegalKey(key) && Canonical(v) && v != ""
    ensures var u: Unit := map[section := map[key := " " + v]];
      && Parse("[" + (section + ("]\n" + (key + ("=" + ("" + ("\n" + (key + ("=" + (v + ("\n" + ""))))))))))) == Some(u)
      && Parse(Print(u, [Listing(section, [key])])) != Some(u)
  {
    hide ParseLine, ParseFrom, Print, PrintPairs, Update, Canonical;
    var u: Unit := map[section := map[key := " " + v]];
    var last := key + ("=" + (v + ("\n" + "")));
    var both := key + ("=" + ("" + ("\n" + last)));
    var u1 := Update(map[], section, key, "", false);
    ResetThenAppend(section, key, v);
    HeaderLine(section, both, "", map[]);
    PairLine(key, "", last, section, map[]);
    PairLine(key, v, "", section, u1);
    ValueSurvives(section, key, " " + v);
    ParseStep("[" + (section + ("]\n" + both)), "", map[], Next(section, map[], both));
    ParseStep(both, section, map[], Next(section, u1, last));
    ParseStep(last, section, u1, Next(section, u, ""));
    ParseEnd(section, u);
  }

  lemma ParseEnd(section: string, u: Unit)
    ensures ParseFrom("", section, u) == Some(u)
  {
  }

  lemma ResetThenAppend(section: string, key: string, v: string)
    requires Canonical(v)
    ensures Update(Update(map[], section, key, "", false), section, key, v, true) == map[section := map[key := " " + v]]
    ensures Canonical("") && !Canonical(" " + v) && All(" " + v, ValueChar)
  {
    assert "" + " " + v == " " + v;
    var one: Unit := map[section := map[key := ""]];
    assert Update(map[], section, key, "", false) == one;
    assert one[section] == map[key := ""];
    assert map[key := ""][key := " " + v] == map[key := " " + v];
    assert one[section := map[key := " " + v]] == map[section := map[key := " " + v]];
  }

  // ----- line continuation -----

  /** Comment lines, each with its newline. */
  datatype Comment = Comment(mark: char, text: string)

  ghost predicate AreComments(cs: seq<Comment>) {
    forall i :: 0 <= i < |cs| ==> CommentChar(cs[i].mark) && All(cs[i].text, InLine)
  }

  function CommentText(cs: seq<Comment>): (s: string) {
    if cs == [] then "" else [cs[0].mark] + (cs[0].text + ("\n" + CommentText(cs[1..])))
  }

  lemma {:induction false} SkipAllComments(cs: seq<Comment>, b: string)
    requires AreComments(cs) && (b != [] ==> !CommentChar(b[0]))
    ensures SkipComments(CommentText(cs) + b) == b
    decreases |cs|
  {
    if cs == [] {
      assert CommentText(cs) + b == b;
    } else {
      var c := cs[0];
      var tail := CommentText(cs[1..]) + b;
      var line, end := [c.mark] + c.text, "\n" + tail;
      CommentLine(c, CommentText(cs[1..]), b);
      SkipAllComments(cs[1..], b);
      hide Split, CommentText;
      Cut(line, end, InLine);
      assert (line + end)[0] == c.mark && end[1..] == tail;
    }
  }

  lemma CommentLine(c: Comment, more: string, b: string)
    ensures ([c.mark] + (c.text + ("\n" + more))) + b == ([c.mark] + c.text) + ("\n" + (more + b))
  {
  }

  /** Inside a value, a continuation with any comment lines after it reads as one space. */
  lemma ContinuationIsSpace(acc: string, cs: seq<Comment>, b: string)
    requires AreComments(cs) && (b != [] ==> !CommentChar(b[0]))
    ensures ScanValue("\\\n" + (CommentText(cs) + b), acc) == ScanValue(" " + b, acc)
  {
    var t := CommentText(cs) + b;
    var s := "\\\n" + t;
    assert s[0] == '\\' && s[1] == '\n' && s[2..] == t;
    SkipAllComments(cs, b);
    hide SkipComments;
    assert (" " + b)[0] == ' ' && (" " + b)[1..] == b;
  }

  /** Plain value characters are read one by one, whatever follows them, unless that is a newline. */
  lemma {:induction false} ScanPrefix(a: string, x: string, acc: string)
    requires All(a, ValueChar) && x != [] && x[0] != '\n'
    ensures ScanValue(a + x, acc) == ScanValue(x, Pushed(acc, a))
  {
    if a == [] {
      assert a + x == x;
    } else {
      var s := a + x;
      assert s[0] == a[0] && s[1..] == a[1..] + x;
      assert s[1] == if |a| > 1 then a[1] else x[0];
      assert |a| > 1 ==> ValueChar(a[1]);
      ScanPrefix(a[1..], x, Push(acc, if a[0] == '\t' then ' ' else a[0]));
    }
  }

  function Pushed(acc: string, a: string): (v: string)
    decreases |a|
  {
    if a == [] then acc else Pushed(Push(acc, if a[0] == '\t' then ' ' else a[0]), a[1..])
  }

  /**
   Breaking a value at a space with a continuation, and putting comment lines after the
   break, does not change what the file means.
   */
  lemma ContinuationPreservesMeaning(
    key: string, b1: string, b2: string, a: string, cs: seq<Comment>, b: string, section: string, u: Unit)
    requires key != [] && All(key, KeyChar) && All(b1, IsBlank) && All(b2, IsBlank)
    requires a != [] && All(a, ValueChar) && !IsBlank(a[0])
    requires AreComments(cs) && (b != [] ==> !CommentChar(b[0]))
    ensures ParseFrom(key + (b1 + ("=" + (b2 + (a + ("\\\n" + (CommentText(cs) + b)))))), section, u)
         == ParseFrom(key + (b1 + ("=" + (b2 + (a + (" " + b))))), section, u)
  {
    hide ParseLine, ScanValue, CommentText;
    var broken, whole := "\\\n" + (CommentText(cs) + b), " " + b;
    assert (a + broken)[0] == a[0] && (a + whole)[0] == a[0];
    PairShape(key, b1, b2, a + broken, section, u);
    PairShape(key, b1, b2, a + whole, section, u);
    ScanPrefix(a, broken, "");
    ScanPrefix(a, whole, "");
    ContinuationIsSpace(Pushed("", a), cs, b);
  }
}
