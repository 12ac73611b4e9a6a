/** The unit embedded in a generated init script is found again, and nothing else in the script is mistaken for it. */
module InitScriptProofs {
  import opened Basics
  import opened TextLines
  import opened UnitFile
  import opened UnitFileProofs
  import opened InitScript

  // ----- the lines of a unit -----

  function PairLines(keys: seq<string>, pairs: Section): (r: seq<string>)
    requires forall i :: 0 <= i < |keys| ==> keys[i] in pairs
  {
    if keys == [] then [] else [keys[0] + ("=" + pairs[keys[0]])] + PairLines(keys[1..], pairs)
  }

  function UnitLines(u: Unit, order: seq<Listing>): (r: seq<string>)
    requires Lists(u, order)
  {
    if order == [] then []
    else ["[" + (order[0].name + "]")] + (PairLines(order[0].keys, u[order[0].name]) + UnitLines(u, order[1..]))
  }

  /** A line of a unit file that cannot be taken for the end of the embedded text. */
  ghost predicate UnitLine(s: string) {
    IsLine(s) && (('=' in s) || (s != [] && s[0] == '['))
  }

  ghost predicate AreUnitLines(ls: seq<string>) {
    forall i :: 0 <= i < |ls| ==> UnitLine(ls[i])
  }

  lemma ConsLine(line: string, ls: seq<string>)
    ensures Lines([line] + ls) == line + ("\n" + Lines(ls))
  {
    assert ([line] + ls)[1..] == ls;
  }

  lemma CanonicalPairLine(key: string, value: string)
    requires LegalKey(key) && Canonical(value)
    ensures UnitLine(key + ("=" + value))
  {
    var s := key + ("=" + value);
    assert s[|key|] == '=';
    forall i | 0 <= i < |s| ensures InLine(s[i]) {
      assert i < |key| ==> KeyChar(key[i]);
      assert i > |key| ==> Printable(value[i - |key| - 1]);
    }
  }

  lemma CanonicalHeaderLine(name: string)
    requires LegalName(name)
    ensures UnitLine("[" + (name + "]"))
  {
    var s := "[" + (name + "]");
    forall i | 0 <= i < |s| ensures InLine(s[i]) {
      assert 0 < i < |s| - 1 ==> NameChar(name[i - 1]);
    }
  }

  lemma {:induction false} PairsAreLines(keys: seq<string>, pairs: Section)
    requires CanonicalSection(pairs)
    requires forall i :: 0 <= i < |keys| ==> keys[i] in pairs
    ensures PrintPairs(keys, pairs) == Lines(PairLines(keys, pairs)) && AreUnitLines(PairLines(keys, pairs))
    decreases |keys|
  {
    if keys != [] {
      var key := keys[0];
      PairsAreLines(keys[1..], pairs);
      CanonicalPairLine(key, pairs[key]);
      ConsLine(key + ("=" + pairs[key]), PairLines(keys[1..], pairs));
      PairLineText(key, pairs[key], PrintPairs(keys[1..], pairs));
    }
  }

  lemma PairLineText(key: string, value: string, rest: string)
    ensures key + ("=" + (value + ("\n" + rest))) == (key + ("=" + value)) + ("\n" + rest)
  {
  }

  lemma HeaderLineText(name: string, rest: string)
    ensures "[" + (name + ("]\n" + rest)) == ("[" + (name + "]")) + ("\n" + rest)
  {
    assert "]\n" == "]" + "\n";
  }

  lemma {:induction false} UnitIsLines(u: Unit, order: seq<Listing>)
    requires CanonicalUnit(u) && Lists(u, order)
    ensures Print(u, order) == Lines(UnitLines(u, order)) && AreUnitLines(UnitLines(u, order))
    decreases |order|
  {
    if order != [] {
      var name, keys := order[0].name, order[0].keys;
      assert LegalName(name) && CanonicalSection(u[name]);
      PairsAreLines(keys, u[name]);
      CanonicalHeaderLine(name);
      UnitIsLines(u, order[1..]);
      hide CanonicalUnit, CanonicalSection, UnitLine, PrintPairs, PairLines, LegalName;
      var more := PairLines(keys, u[name]) + UnitLines(u, order[1..]);
      LinesAppend(PairLines(keys, u[name]), UnitLines(u, order[1..]));
      ConsLine("[" + (name + "]"), more);
      HeaderLineText(name, PrintPairs(keys, u[name]) + Print(u, order[1..]));
    }
  }

  // ----- the searches -----

  lemma OneLineAt(txt: string, i: nat, line: string)
    requires At(txt, i, Lines([line]))
    ensures At(txt, i, line) && At(txt, i + |line|, "\n") && |Lines([line])| == |line| + 1
  {
    assert Lines([line]) == line + ("\n" + Lines([]));
    assert "\n" + Lines([]) == "\n";
    AtParts(txt, i, line, "\n");
  }

  /** After some lines that do not match comes one that does. */
  lemma NextHit(txt: string, prev: Span, ls: seq<string>, line: string, want: string, whole: bool)
    requires prev.end < |txt| && txt[prev.end] == '\n'
    requires AreLines(ls) && At(txt, prev.end + 1, Lines(ls))
    requires forall k :: 0 <= k < |ls| ==> !Matches(ls[k], want, whole)
    requires IsLine(line) && At(txt, prev.end + 1 + |Lines(ls)|, Lines([line])) && Matches(line, want, whole)
    ensures var i := prev.end + 1 + |Lines(ls)|;
      FindNext(txt, prev, want, whole) == Some(Span(i, i + |line|)) && i + |line| < |txt| && txt[i + |line|] == '\n'
  {
    hide At, Matches, FindLine, Lines, LineEnd, IsLine;
    var i := prev.end + 1 + |Lines(ls)|;
    OneLineAt(txt, i, line);
    LineAt(txt, i, line);
    SkipLines(txt, prev.end + 1, ls, want, whole);
    HitLine(txt, i, line, want, whole);
  }

  // ----- the script -----

  /** Text that stays on its line. */
  ghost predicate AreWords(ws: seq<string>) {
    forall i :: 0 <= i < |ws| ==> IsLine(ws[i])
  }

  lemma {:induction false} WordsAreLine(ws: seq<string>)
    requires AreWords(ws)
    ensures IsLine(Words(ws))
  {
    if ws != [] {
      WordsAreLine(ws[1..]);
    }
  }

  lemma InfoLineIsLine(tag: string, width: nat, text: string)
    requires IsLine(tag) && IsLine(text)
    ensures IsLine(InfoLine(tag, width, text))
    ensures |InfoLine(tag, width, text)| >= 2 && InfoLine(tag, width, text)[1] == ' '
  {
  }

  /** What the script needs: a canonical unit, and names, words and our own path that stay on their line. */
  ghost predicate Convertible(svc: Service, self: string) {
    && CanonicalUnit(svc.unit) && IsLine(svc.name) && IsLine(self)
    && AreWords(svc.required) && AreWords(svc.should)
  }

  lemma CanonicalIsLine(v: string)
    requires Canonical(v)
    ensures IsLine(v)
  {
  }

  lemma TagsAreLines()
    ensures IsLine("Required-Start:") && IsLine("Should-Start:") && IsLine("Default-Start:")
    ensures IsLine("2 3 4 5") && IsLine("Short-Description")
  {
  }

  lemma InfoLines(svc: Service, self: string)
    requires Convertible(svc, self)
    ensures AreLines(Info(svc)) && forall k :: 0 <= k < |Info(svc)| ==> !Matches(Info(svc)[k], END_INFO, true)
  {
    TagsAreLines();
    hide InfoLine, IsLine, Words;
    WordsAreLine(svc.required);
    WordsAreLine(svc.should);
    InfoLineIsLine("Required-Start:", 21, Words(svc.required));
    InfoLineIsLine("Should-Start:", 21, Words(svc.should));
    InfoLineIsLine("Default-Start:", 22, "2 3 4 5");
    var d := Get(svc.unit, "Unit", "Description");
    if d.Some? {
      assert "Description" in svc.unit["Unit"];
      CanonicalIsLine(d.value);
      InfoLineIsLine("Short-Description", 22, d.value);
    }
    forall k | 0 <= k < |Info(svc)| ensures IsLine(Info(svc)[k]) && !Matches(Info(svc)[k], END_INFO, true) {
      assert Info(svc)[k][1] == ' ' && END_INFO[1] == '#';
    }
  }

  lemma ExecLineIsLine(self: string, name: string)
    requires IsLine(self) && IsLine(name)
    ensures IsLine(ExecLine(self, name)) && ExecLine(self, name)[0] == 'e'
  {
  }

  lemma ProvidesLineText(name: string)
    ensures ProvidesLine(name) == PROVIDES + (Spaces(13) + name)
  {
    assert "# " + "Provides:" == PROVIDES;
    assert Pad("Provides:", 22) == "Provides:" + Spaces(13);
  }

  /** Skipping blanks after more blanks. */
  lemma SplitAfterBlanks(blanks: string, s: string)
    requires All(blanks, IsBlank)
    ensures Split(blanks + s, IsBlank).1 == Split(s, IsBlank).1
  {
    hide Split;
    var (b, rest) := Split(s, IsBlank);
    SplitFacts(s, IsBlank);
    assert blanks + s == (blanks + b) + rest;
    Cut(blanks + b, rest, IsBlank);
  }

  /** The Provides line of a script names the service exactly if the name does not start with a blank. */
  lemma ProvidesItsName(name: string)
    ensures PROVIDES <= ProvidesLine(name)
    ensures Provides(ProvidesLine(name), PROVIDES, name) <==> name == "" || !IsBlank(name[0])
  {
    hide Split, ProvidesLine;
    ProvidesLineText(name);
    var line := ProvidesLine(name);
    assert line[|PROVIDES|..] == Spaces(13) + name;
    SplitAfterBlanks(Spaces(13), name);
    SplitFacts(name, IsBlank);
    var (b, rest) := Split(name, IsBlank);
    if b == "" {
      assert rest == name;
    } else {
      assert b[0] == name[0] && |rest| < |name|;
    }
  }

  /** Where the parts of a text stand. */
  ghost predicate Layout(txt: string, i: nat, parts: seq<string>)
    decreases |parts|
  {
    parts == [] || (At(txt, i, parts[0]) && Layout(txt, i + |parts[0]|, parts[1..]))
  }

  lemma {:induction false} ConcatLayout(txt: string, i: nat, parts: seq<string>)
    requires At(txt, i, Concat(parts))
    ensures Layout(txt, i, parts)
    decreases |parts|
  {
    if parts != [] {
      AtParts(txt, i, parts[0], Concat(parts[1..]));
      ConcatLayout(txt, i + |parts[0]|, parts[1..]);
    }
  }

  /** The parts of a generated script stand one after the other. */
  lemma ScriptLayout(svc: Service, self: string, order: seq<Listing>)
    requires Lists(svc.unit, order)
    ensures Layout(Script(svc, self, order), 0, Parts(svc, self, order))
  {
    hide Parts, Concat;
    var txt := Script(svc, self, order);
    assert txt[0..0 + |txt|] == txt;
    ConcatLayout(txt, 0, Parts(svc, self, order));
  }

  /** Where the k-th part starts. */
  function Offset(parts: seq<string>, k: nat): (n: nat)
    requires k <= |parts|
  {
    if k == 0 then 0 else Offset(parts, k - 1) + |parts[k - 1]|
  }

  lemma {:induction false} PartAt(txt: string, i: nat, parts: seq<string>, k: nat)
    requires Layout(txt, i, parts) && k < |parts|
    ensures At(txt, i + Offset(parts, k), parts[k])
    decreases k
  {
    if k > 0 {
      PartAt(txt, i + |parts[0]|, parts[1..], k - 1);
      OffsetShift(parts, k);
    }
  }

  lemma {:induction false} OffsetShift(parts: seq<string>, k: nat)
    requires 0 < k <= |parts|
    ensures Offset(parts, k) == |parts[0]| + Offset(parts[1..], k - 1)
  {
    if k > 1 {
      OffsetShift(parts, k - 1);
    }
  }

  lemma FirstHit(txt: string, ls: seq<string>, line: string, want: string)
    requires AreLines(ls) && At(txt, 0, Lines(ls)) && forall k :: 0 <= k < |ls| ==> !Matches(ls[k], want, true)
    requires IsLine(line) && At(txt, |Lines(ls)|, Lines([line])) && Matches(line, want, true)
    ensures var i := |Lines(ls)|;
      FindLine(txt, 0, want, true) == Some(Span(i, i + |line|)) && i + |line| < |txt| && txt[i + |line|] == '\n'
  {
    hide At, Matches, FindLine, Lines, LineEnd, IsLine;
    var i := |Lines(ls)|;
    OneLineAt(txt, i, line);
    LineAt(txt, i, line);
    SkipLines(txt, 0, ls, want, true);
    HitLine(txt, i, line, want, true);
  }

  /** The lines of a script that the searches must pass over or find. */
  datatype Shape = Shape(top: seq<string>, prov: string, info: seq<string>, code: seq<string>, unit: seq<string>)

  ghost predicate NoneMatches(ls: seq<string>, want: string) {
    AreLines(ls) && forall k :: 0 <= k < |ls| ==> !Matches(ls[k], want, true)
  }

  ghost predicate Unambiguous(s: Shape, m: Markers) {
    && IsLine(m.beginInfo) && IsLine(s.prov) && IsLine(m.endInfo) && IsLine(m.beginEmbed) && IsLine(m.endEmbed)
    && NoneMatches(s.top, m.beginInfo) && m.prov <= s.prov && NoneMatches(s.info, m.endInfo)
    && NoneMatches(s.code, m.beginEmbed) && NoneMatches(s.unit, m.endEmbed)
  }

  function ShapeParts(s: Shape, m: Markers): (r: seq<string>)
    ensures |r| == 9
  {
    [Lines(s.top), Lines([m.beginInfo]), Lines([s.prov]), Lines(s.info), Lines([m.endInfo]),
     Lines(s.code), Lines([m.beginEmbed]), Lines(s.unit), Lines([m.endEmbed])]
  }

  lemma OneLineLength(line: string)
    ensures |Lines([line])| == |line| + 1
  {
    assert Lines([line]) == line + ("\n" + Lines([]));
  }

  /** Where everything stands. */
  lemma ShapeAt(txt: string, s: Shape, m: Markers)
    requires Layout(txt, 0, ShapeParts(s, m))
    ensures var p := ShapeParts(s, m);
      && Offset(p, 1) == |Lines(s.top)| && Offset(p, 2) == Offset(p, 1) + |m.beginInfo| + 1
      && Offset(p, 3) == Offset(p, 2) + |s.prov| + 1 && Offset(p, 4) == Offset(p, 3) + |Lines(s.info)|
      && Offset(p, 5) == Offset(p, 4) + |m.endInfo| + 1 && Offset(p, 6) == Offset(p, 5) + |Lines(s.code)|
      && Offset(p, 7) == Offset(p, 6) + |m.beginEmbed| + 1 && Offset(p, 8) == Offset(p, 7) + |Lines(s.unit)|
      && At(txt, 0, Lines(s.top)) && At(txt, Offset(p, 1), Lines([m.beginInfo]))
      && At(txt, Offset(p, 2), Lines([s.prov])) && At(txt, Offset(p, 3), Lines(s.info))
      && At(txt, Offset(p, 4), Lines([m.endInfo])) && At(txt, Offset(p, 5), Lines(s.code))
      && At(txt, Offset(p, 6), Lines([m.beginEmbed])) && At(txt, Offset(p, 7), Lines(s.unit))
      && At(txt, Offset(p, 8), Lines([m.endEmbed]))
  {
    hide Layout, At, Lines;
    var p := ShapeParts(s, m);
    PartAt(txt, 0, p, 0);
    PartAt(txt, 0, p, 1);
    PartAt(txt, 0, p, 2);
    PartAt(txt, 0, p, 3);
    PartAt(txt, 0, p, 4);
    PartAt(txt, 0, p, 5);
    PartAt(txt, 0, p, 6);
    PartAt(txt, 0, p, 7);
    PartAt(txt, 0, p, 8);
    assert Offset(p, 0) == 0 && Offset(p, 1) == Offset(p, 0) + |p[0]| && Offset(p, 2) == Offset(p, 1) + |p[1]|;
    assert Offset(p, 3) == Offset(p, 2) + |p[2]| && Offset(p, 4) == Offset(p, 3) + |p[3]|;
    assert Offset(p, 5) == Offset(p, 4) + |p[4]| && Offset(p, 6) == Offset(p, 5) + |p[5]|;
    assert Offset(p, 7) == Offset(p, 6) + |p[6]| && Offset(p, 8) == Offset(p, 7) + |p[7]|;
    OneLineLength(m.beginInfo);
    OneLineLength(s.prov);
    OneLineLength(m.endInfo);
    OneLineLength(m.beginEmbed);
  }

  lemma AtNothing(txt: string, i: nat, s: string)
    requires At(txt, i, s)
    ensures At(txt, i, Lines([])) && |Lines([])| == 0
  {
  }

  lemma FindsBegin(txt: string, s: Shape, m: Markers, i: nat)
    requires NoneMatches(s.top, m.beginInfo) && IsLine(m.beginInfo)
    requires i == |Lines(s.top)| && At(txt, 0, Lines(s.top)) && At(txt, i, Lines([m.beginInfo]))
    ensures FindLine(txt, 0, m.beginInfo, true) == Some(Span(i, i + |m.beginInfo|))
    ensures i + |m.beginInfo| < |txt| && txt[i + |m.beginInfo|] == '\n'
  {
    hide Lines, FindLine, IsLine, At, Matches, AreLines;
    MatchesItself(m.beginInfo);
    FirstHit(txt, s.top, m.beginInfo, m.beginInfo);
  }

  lemma FindsAfter(txt: string, prev: Span, line: string, want: string)
    requires prev.end < |txt| && txt[prev.end] == '\n'
    requires IsLine(line) && At(txt, prev.end + 1, Lines([line])) && Matches(line, want, false)
    ensures var i := prev.end + 1;
      FindNext(txt, prev, want, false) == Some(Span(i, i + |line|)) && i + |line| < |txt| && txt[i + |line|] == '\n'
  {
    hide Lines, FindLine, FindNext, IsLine, At, Matches, AreLines;
    NoLines();
    AtNothing(txt, prev.end + 1, Lines([line]));
    NextHit(txt, prev, [], line, want, false);
  }

  lemma ReadsLine(txt: string, i: nat, line: string)
    requires IsLine(line) && At(txt, i, Lines([line]))
    ensures i + |line| <= |txt| && txt[i..i + |line|] == line
  {
    hide Lines, IsLine, At;
    OneLineAt(txt, i, line);
    LineAt(txt, i, line);
  }

  lemma FindsProvides(txt: string, s: Shape, m: Markers)
    requires Unambiguous(s, m) && Layout(txt, 0, ShapeParts(s, m))
    ensures var i := Offset(ShapeParts(s, m), 2);
      var begin := FindLine(txt, 0, m.beginInfo, true);
      && begin.Some?
      && FindNext(txt, begin.value, m.prov, false) == Some(Span(i, i + |s.prov|))
      && i + |s.prov| < |txt| && txt[i + |s.prov|] == '\n' && txt[i..i + |s.prov|] == s.prov
  {
    hide Layout, Lines, FindLine, FindNext, LineEnd, IsLine, Offset, ShapeParts, At, NoneMatches, Matches, Unambiguous;
    ShapeAt(txt, s, m);
    ShapeTop(s, m);
    var i, j := Offset(ShapeParts(s, m), 1), Offset(ShapeParts(s, m), 2);
    FindsBegin(txt, s, m, i);
    FindsAfter(txt, Span(i, i + |m.beginInfo|), s.prov, m.prov);
    ReadsLine(txt, j, s.prov);
  }

  lemma ShapeTop(s: Shape, m: Markers)
    requires Unambiguous(s, m)
    ensures IsLine(m.beginInfo) && IsLine(s.prov) && NoneMatches(s.top, m.beginInfo) && Matches(s.prov, m.prov, false)
  {
  }

  lemma MatchesItself(line: string)
    ensures Matches(line, line, true)
  {
  }

  lemma NoLines()
    ensures AreLines([])
  {
  }

  lemma FindsEmbedded(txt: string, s: Shape, m: Markers, prov: Span)
    requires Unambiguous(s, m) && Layout(txt, 0, ShapeParts(s, m))
    requires prov.end < |txt| && txt[prov.end] == '\n' && prov.end + 1 == Offset(ShapeParts(s, m), 3)
    ensures ExtractAfter(m, txt, prov) == Found(Offset(ShapeParts(s, m), 7), Offset(ShapeParts(s, m), 8))
  {
    hide Layout, Lines, FindLine, FindNext, LineEnd, IsLine, Offset, ShapeParts, At;
    ShapeAt(txt, s, m);
    var i, j := Offset(ShapeParts(s, m), 4), Offset(ShapeParts(s, m), 6);
    NextHit(txt, prov, s.info, m.endInfo, m.endInfo, true);
    NextHit(txt, Span(i, i + |m.endInfo|), s.code, m.beginEmbed, m.beginEmbed, true);
    NextHit(txt, Span(j, j + |m.beginEmbed|), s.unit, m.endEmbed, m.endEmbed, true);
  }

  /** The searches find exactly the lines between the two markers of the embedded text, if the name is right. */
  lemma SearchesFind(txt: string, name: string, s: Shape, m: Markers)
    requires Unambiguous(s, m) && Layout(txt, 0, ShapeParts(s, m))
    ensures m.prov <= s.prov
    ensures var r := Extract(m, txt, name);
      if Provides(s.prov, m.prov, name) then r.Found? && txt[r.beg..r.end] == Lines(s.unit) else r == Missing
  {
    hide Layout, Lines, Offset, FindLine, FindNext, Provides, ShapeParts, ExtractAfter, Extract;
    hide At, NoneMatches, IsLine;
    FindsProvides(txt, s, m);
    var p := ShapeParts(s, m);
    var prov := Span(Offset(p, 2), Offset(p, 2) + |s.prov|);
    ExtractSteps(m, txt, name, FindLine(txt, 0, m.beginInfo, true).value, prov, s.prov);
    EmbeddedText(txt, s, m, prov);
  }

  lemma EmbeddedText(txt: string, s: Shape, m: Markers, prov: Span)
    requires Unambiguous(s, m) && Layout(txt, 0, ShapeParts(s, m))
    requires prov == Span(Offset(ShapeParts(s, m), 2), Offset(ShapeParts(s, m), 2) + |s.prov|)
    requires prov.end < |txt| && txt[prov.end] == '\n'
    ensures var r := ExtractAfter(m, txt, prov);
      r.Found? && txt[r.beg..r.end] == Lines(s.unit)
  {
    hide Layout, Lines, Offset, FindLine, FindNext, ShapeParts, ExtractAfter, Unambiguous;
    ShapeAt(txt, s, m);
    FindsEmbedded(txt, s, m, prov);
  }

  lemma ExtractSteps(m: Markers, txt: string, name: string, begin: Span, prov: Span, line: string)
    requires FindLine(txt, 0, m.beginInfo, true) == Some(begin) && FindNext(txt, begin, m.prov, false) == Some(prov)
    requires txt[prov.beg..prov.end] == line && m.prov <= line
    ensures Extract(m, txt, name) == if Provides(line, m.prov, name) then ExtractAfter(m, txt, prov) else Missing
  {
    hide FindLine, FindNext, Provides, ExtractAfter;
  }

  // ----- the theorem -----

  function ScriptShape(svc: Service, self: string, order: seq<Listing>): (r: Shape)
    requires Lists(svc.unit, order)
  {
    Shape(["#!/bin/sh", ""], ProvidesLine(svc.name), Info(svc), ["", ExecLine(self, svc.name), ""],
          UnitLines(svc.unit, order))
  }

  lemma FixedLines()
    ensures IsLine(BEGIN_INFO) && IsLine(END_INFO) && IsLine(BEGIN_EMBED) && IsLine(END_EMBED)
    ensures IsLine("") && IsLine("Provides:")
    ensures NoneMatches(["#!/bin/sh", ""], BEGIN_INFO)
  {
  }

  lemma UnitLinesDiffer(ls: seq<string>)
    requires AreUnitLines(ls)
    ensures NoneMatches(ls, END_EMBED)
  {
    assert '=' !in END_EMBED;
    forall k | 0 <= k < |ls| ensures IsLine(ls[k]) && !Matches(ls[k], END_EMBED, true) {
      assert UnitLine(ls[k]);
    }
  }

  lemma CodeLinesDiffer(exec: string)
    requires IsLine(exec) && exec != "" && exec[0] == 'e'
    ensures NoneMatches(["", exec, ""], BEGIN_EMBED)
  {
    var ls := ["", exec, ""];
    forall k | 0 <= k < |ls| ensures IsLine(ls[k]) && !Matches(ls[k], BEGIN_EMBED, true) {
    }
  }

  lemma ScriptIsUnambiguous(svc: Service, self: string, order: seq<Listing>)
    requires Convertible(svc, self) && Lists(svc.unit, order)
    ensures Unambiguous(ScriptShape(svc, self, order), MARKERS)
    ensures ShapeParts(ScriptShape(svc, self, order), MARKERS) == Parts(svc, self, order)
  {
    FixedLines();
    UnitIsLines(svc.unit, order);
    hide IsLine, Lines, UnitLines, Print, InfoLine, Info, ExecLine, Canonical, CanonicalUnit, Words;
    UnitLinesDiffer(UnitLines(svc.unit, order));
    ExecLineIsLine(self, svc.name);
    CodeLinesDiffer(ExecLine(self, svc.name));
    InfoLines(svc, self);
    ProvidesItsName(svc.name);
    InfoLineIsLine("Provides:", 22, svc.name);
  }

  /**
   In the script generated for a service the parser finds the service, and narrows to
   exactly the text of its unit, unless the name starts with a blank.
   */
  lemma ConvertFindsUnit(svc: Service, self: string, order: seq<Listing>)
    requires Convertible(svc, self) && Lists(svc.unit, order)
    ensures var txt := Script(svc, self, order);
      var r := Extract(MARKERS, txt, svc.name);
      if svc.name == "" || !IsBlank(svc.name[0]) then r.Found? && txt[r.beg..r.end] == Print(svc.unit, order)
      else r == Missing
  {
    UnitIsLines(svc.unit, order);
    ScriptLayout(svc, self, order);
    ScriptIsUnambiguous(svc, self, order);
    ProvidesItsName(svc.name);
    SearchesFind(Script(svc, self, order), svc.name, ScriptShape(svc, self, order), MARKERS);
    hide Extract, Script, Print, Layout, Unambiguous, ShapeParts, Parts, Provides;
    hide Info, ExecLine, ProvidesLine, UnitLines, Lines;
  }

  /** Converting a service and reading the script back gives the unit that was converted. */
  lemma ConvertRoundTrip(svc: Service, self: string, order: seq<Listing>)
    requires Convertible(svc, self) && Enumerates(svc.unit, order)
    requires svc.name == "" || !IsBlank(svc.name[0])
    ensures var txt := Script(svc, self, order);
      var r := Extract(MARKERS, txt, svc.name);
      r.Found? && Parse(txt[r.beg..r.end]) == Some(Populated(svc.unit))
  {
    hide Extract, Script, Print, Parse;
    ConvertFindsUnit(svc, self, order);
    UnitRoundTrip(svc.unit, order);
  }
}
