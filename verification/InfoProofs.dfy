/**
 The comment block of a generated init script, read as section 22.3 of LSB Core 5.0 says: the
 first line with a keyword, split into words at blanks.
 */
module InfoProofs {
  import opened Basics
  import opened TextLines
  import opened UnitFile
  import opened InitScript
  import opened StrList

  // ----- a reader of the block -----

  /** What follows the prefix on the first line that has it. */
  function After(lines: seq<string>, prefix: string): (r: Option<string>) {
    if lines == [] then None
    else if prefix <= lines[0] then Some(lines[0][|prefix|..])
    else After(lines[1..], prefix)
  }

  /** The words there. */
  function ReadInfo(lines: seq<string>, prefix: string): (r: Option<seq<string>>) {
    match After(lines, prefix)
    case None => None
    case Some(text) => Some(FromDelim(text, ' ', false, false))
  }

  lemma {:induction false} AfterAppend(a: seq<string>, b: seq<string>, prefix: string)
    ensures After(a + b, prefix) == if After(a, prefix).Some? then After(a, prefix) else After(b, prefix)
  {
    if a == [] {
      assert a + b == b;
    } else {
      assert (a + b)[0] == a[0] && (a + b)[1..] == a[1..] + b;
      AfterAppend(a[1..], b, prefix);
    }
  }

  // ----- words -----

  /** Nonempty words without blanks. */
  ghost predicate Plain(ws: seq<string>) {
    forall i :: 0 <= i < |ws| ==> ws[i] != "" && ' ' !in ws[i]
  }

  lemma {:induction false} WordsSnoc(ws: seq<string>, w: string)
    ensures Words(ws + [w]) == Words(ws) + (" " + w)
  {
    if ws == [] {
      assert ws + [w] == [w] && [w][1..] == [];
      assert Words([w]) == " " + (w + "");
      assert w + "" == w && "" + (" " + w) == " " + w;
    } else {
      assert (ws + [w])[0] == ws[0] && (ws + [w])[1..] == ws[1..] + [w];
      WordsSnoc(ws[1..], w);
      assert " " + (ws[0] + (Words(ws[1..]) + (" " + w))) == " " + (ws[0] + Words(ws[1..])) + (" " + w);
    }
  }

  lemma OneMoreWord(s: string, w: string)
    requires w != "" && ' ' !in w
    ensures FromDelim(s + (" " + w), ' ', false, false) == FromDelim(s, ' ', false, false) + [w]
  {
    var t := s + " ";
    assert t[..|t| - 1] == s && t[|t| - 1] == ' ';
    var ps := Pieces(s, ' ');
    assert Pieces(t, ' ') == ps + [""];
    PiecesExtend(t, w, ' ');
    assert t + w == s + (" " + w);
    assert (ps + [""])[..|ps|] == ps && "" + w == w;
    assert Pieces(t + w, ' ') == ps + [w];
    assert (ps + [w])[..|ps|] == ps;
  }

  lemma {:induction false} OnlySpaces(n: nat)
    ensures FromDelim(Spaces(n), ' ', false, false) == []
  {
    if n > 0 {
      OnlySpaces(n - 1);
      var s := Spaces(n);
      assert s[..n - 1] == Spaces(n - 1) && s[n - 1] == ' ';
      hide Spaces;
      var ps := Pieces(Spaces(n - 1), ' ');
      assert (ps + [""])[..|ps|] == ps;
    }
  }

  /** The words of a line come back, however it is indented. */
  lemma {:induction false} WordsReadBack(n: nat, ws: seq<string>)
    requires Plain(ws)
    ensures FromDelim(Spaces(n) + Words(ws), ' ', false, false) == ws
    decreases |ws|
  {
    if ws == [] {
      OnlySpaces(n);
      assert Spaces(n) + "" == Spaces(n);
    } else {
      var init, w := ws[..|ws| - 1], ws[|ws| - 1];
      assert ws == init + [w];
      WordsReadBack(n, init);
      WordsSnoc(init, w);
      assert Spaces(n) + (Words(init) + (" " + w)) == Spaces(n) + Words(init) + (" " + w);
      OneMoreWord(Spaces(n) + Words(init), w);
    }
  }

  // ----- the lines -----

  lemma LineText(tag: string, width: nat, text: string)
    requires |tag| < width
    ensures InfoLine(tag, width, text) == "# " + tag + (Spaces(width - |tag|) + text)
  {
    assert Pad(tag, width) == tag + Spaces(width - |tag|);
  }

  /** A line is read if its keyword is asked for. */
  lemma AfterOwn(tag: string, width: nat, text: string)
    requires |tag| < width
    ensures After([InfoLine(tag, width, text)], "# " + tag) == Some(Spaces(width - |tag|) + text)
  {
    LineText(tag, width, text);
    hide InfoLine;
    assert [InfoLine(tag, width, text)][0] == InfoLine(tag, width, text);
  }

  /** And not if another one is. */
  lemma AfterOther(tag: string, width: nat, text: string, other: string, k: nat)
    requires |tag| < width && k < |other|
    requires if k < |tag| then other[k] != tag[k] else k == |tag| && other[k] != ' '
    ensures After([InfoLine(tag, width, text)], "# " + other) == None
  {
    LineText(tag, width, text);
    var line := InfoLine(tag, width, text);
    hide InfoLine;
    var prefix := "# " + other;
    assert prefix[k + 2] == other[k];
    assert line[k + 2] == if k < |tag| then tag[k] else ' ';
    var none: seq<string> := [line][1..];
    assert none == [] && After(none, prefix) == None;
  }

  const REQUIRED := "Required-Start:"
  const SHOULD := "Should-Start:"
  const START := "Default-Start:"
  const SHORT := "Short-Description"

  /** The block, line by line. */
  lemma InfoParts(svc: Service, prefix: string)
    ensures var required, should := After([InfoLine(REQUIRED, 21, Words(svc.required))], prefix),
                                    After([InfoLine(SHOULD, 21, Words(svc.should))], prefix);
      var d := Get(svc.unit, "Unit", "Description");
      After(Info(svc), prefix) ==
        if svc.required != [] && required.Some? then required
        else if svc.should != [] && should.Some? then should
        else if After([InfoLine(START, 22, "2 3 4 5")], prefix).Some? then
          After([InfoLine(START, 22, "2 3 4 5")], prefix)
        else if d.Some? then After([InfoLine(SHORT, 22, d.value)], prefix)
        else None
  {
    var a := if svc.required != [] then [InfoLine(REQUIRED, 21, Words(svc.required))] else [];
    var b := if svc.should != [] then [InfoLine(SHOULD, 21, Words(svc.should))] else [];
    var c := [InfoLine(START, 22, "2 3 4 5")];
    var d := match Get(svc.unit, "Unit", "Description")
      case None => []
      case Some(text) => [InfoLine(SHORT, 22, text)];
    assert Info(svc) == a + (b + (c + d));
    hide InfoLine, Words, Get, After;
    AfterAppend(a, b + (c + d), prefix);
    AfterAppend(b, c + d, prefix);
    AfterAppend(c, d, prefix);
    AfterNothing(prefix);
  }

  lemma AfterNothing(prefix: string)
    ensures After([], prefix) == None
  {
  }

  lemma RequiredOnly(required: seq<string>, should: seq<string>, text: string)
    ensures After([InfoLine(REQUIRED, 21, Words(required))], "# " + REQUIRED) == Some(Spaces(6) + Words(required))
    ensures After([InfoLine(SHOULD, 21, Words(should))], "# " + REQUIRED) == None
    ensures After([InfoLine(START, 22, "2 3 4 5")], "# " + REQUIRED) == None
    ensures After([InfoLine(SHORT, 22, text)], "# " + REQUIRED) == None
  {
    hide InfoLine, Words, After;
    AfterOwn(REQUIRED, 21, Words(required));
    AfterOther(SHOULD, 21, Words(should), REQUIRED, 0);
    AfterOther(START, 22, "2 3 4 5", REQUIRED, 0);
    AfterOther(SHORT, 22, text, REQUIRED, 0);
  }

  lemma ShouldOnly(required: seq<string>, should: seq<string>, text: string)
    ensures After([InfoLine(REQUIRED, 21, Words(required))], "# " + SHOULD) == None
    ensures After([InfoLine(SHOULD, 21, Words(should))], "# " + SHOULD) == Some(Spaces(8) + Words(should))
    ensures After([InfoLine(START, 22, "2 3 4 5")], "# " + SHOULD) == None
    ensures After([InfoLine(SHORT, 22, text)], "# " + SHOULD) == None
  {
    hide InfoLine, Words, After;
    AfterOther(REQUIRED, 21, Words(required), SHOULD, 0);
    AfterOwn(SHOULD, 21, Words(should));
    AfterOther(START, 22, "2 3 4 5", SHOULD, 0);
    AfterOther(SHORT, 22, text, SHOULD, 3);
  }

  lemma StartOnly(required: seq<string>, should: seq<string>, text: string)
    ensures After([InfoLine(REQUIRED, 21, Words(required))], "# " + START) == None
    ensures After([InfoLine(SHOULD, 21, Words(should))], "# " + START) == None
    ensures After([InfoLine(START, 22, "2 3 4 5")], "# " + START) == Some(Spaces(8) + "2 3 4 5")
  {
    hide InfoLine, Words, After;
    AfterOther(REQUIRED, 21, Words(required), START, 0);
    AfterOther(SHOULD, 21, Words(should), START, 0);
    AfterOwn(START, 22, "2 3 4 5");
  }

  lemma DefaultStart()
    ensures FromDelim(Spaces(8) + "2 3 4 5", ' ', false, false) == ["2", "3", "4", "5"]
  {
    hide FromDelim;
    OnlySpaces(7);
    var s := Spaces(7);
    OneMoreWord(s, "2");
    OneMoreWord(s + " 2", "3");
    OneMoreWord(s + " 2 3", "4");
    OneMoreWord(s + " 2 3 4", "5");
    assert s + (" " + "2") == s + " 2";
    assert s + " 2" + (" " + "3") == s + " 2 3";
    assert s + " 2 3" + (" " + "4") == s + " 2 3 4";
    assert s + " 2 3 4" + (" " + "5") == Spaces(8) + "2 3 4 5";
  }

  lemma Keywords()
    ensures "# " + REQUIRED == "# Required-Start:" && "# " + SHOULD == "# Should-Start:"
    ensures "# " + START == "# Default-Start:"
  {
  }

  lemma RequiredReadBack(svc: Service)
    requires Plain(svc.required)
    ensures ReadInfo(Info(svc), "# Required-Start:") == if svc.required == [] then None else Some(svc.required)
  {
    var d := Get(svc.unit, "Unit", "Description");
    var text := if d.Some? then d.value else "";
    hide InfoLine, Words, Get, After, Info, FromDelim, Spaces, Plain;
    RequiredOnly(svc.required, svc.should, text);
    InfoParts(svc, "# " + REQUIRED);
    Keywords();
    WordsReadBack(6, svc.required);
  }

  lemma ShouldReadBack(svc: Service)
    requires Plain(svc.should)
    ensures ReadInfo(Info(svc), "# Should-Start:") == if svc.should == [] then None else Some(svc.should)
  {
    var d := Get(svc.unit, "Unit", "Description");
    var text := if d.Some? then d.value else "";
    hide InfoLine, Words, Get, After, Info, FromDelim, Spaces, Plain;
    ShouldOnly(svc.required, svc.should, text);
    InfoParts(svc, "# " + SHOULD);
    Keywords();
    WordsReadBack(8, svc.should);
  }

  lemma StartReadBack(svc: Service)
    ensures ReadInfo(Info(svc), "# Default-Start:") == Some(["2", "3", "4", "5"])
  {
    var d := Get(svc.unit, "Unit", "Description");
    var text := if d.Some? then d.value else "";
    hide InfoLine, Words, Get, After, Info, FromDelim, Spaces, Plain;
    StartOnly(svc.required, svc.should, text);
    InfoParts(svc, "# " + START);
    Keywords();
    DefaultStart();
  }

  /** The services that must be, or should be, started first are read back from the block. */
  lemma OrderIsReadBack(svc: Service)
    requires Plain(svc.required) && Plain(svc.should)
    ensures ReadInfo(Info(svc), "# Required-Start:") == if svc.required == [] then None else Some(svc.required)
    ensures ReadInfo(Info(svc), "# Should-Start:") == if svc.should == [] then None else Some(svc.should)
    ensures ReadInfo(Info(svc), "# Default-Start:") == Some(["2", "3", "4", "5"])
  {
    hide ReadInfo, Info;
    RequiredReadBack(svc);
    ShouldReadBack(svc);
    StartReadBack(svc);
  }

  // ----- the description -----

  /** The keyword is written without its colon, so no script has a short description as the standard spells it. */
  lemma NoShortDescription(svc: Service)
    ensures After(Info(svc), "# Short-Description:") == None
  {
    var d := Get(svc.unit, "Unit", "Description");
    var keyword := SHORT + ":";
    hide InfoLine, Words, Get, After, Info;
    InfoParts(svc, "# " + keyword);
    assert "# " + keyword == "# Short-Description:";
    AfterOther(REQUIRED, 21, Words(svc.required), keyword, 0);
    AfterOther(SHOULD, 21, Words(svc.should), keyword, 3);
    AfterOther(START, 22, "2 3 4 5", keyword, 0);
    if d.Some? {
      AfterOther(SHORT, 22, d.value, keyword, |SHORT|);
    }
  }

  /** Without the colon the description of the unit is there, five columns on. */
  lemma DescriptionIsThere(svc: Service)
    ensures var d := Get(svc.unit, "Unit", "Description");
      After(Info(svc), "# Short-Description") == if d.Some? then Some(Spaces(5) + d.value) else None
  {
    var d := Get(svc.unit, "Unit", "Description");
    hide InfoLine, Words, Get, After, Info;
    InfoParts(svc, "# " + SHORT);
    assert "# " + SHORT == "# Short-Description";
    AfterOther(REQUIRED, 21, Words(svc.required), SHORT, 0);
    AfterOther(SHOULD, 21, Words(svc.should), SHORT, 3);
    AfterOther(START, 22, "2 3 4 5", SHORT, 0);
    if d.Some? {
      AfterOwn(SHORT, 22, d.value);
    }
  }

  // ----- the command -----

  /** The command line, as the shell splits it: our own program, the script, the service, the arguments. */
  lemma ExecWords(self: string, name: string)
    requires self != "" && ' ' !in self && name != "" && ' ' !in name
    ensures FromDelim(ExecLine(self, name), ' ', false, false)
         == ["exec", self, "-u", "\"$0\"", name, "\"$@\""]
  {
    hide FromDelim, ExecLine, ExecHead;
    ExecText(self, name);
    HeadWords(self);
    OneMoreWord(ExecHead(self), name);
    OneMoreWord(ExecHead(self) + (" " + name), "\"$@\"");
  }

  function ExecHead(self: string): (s: string) {
    "exec" + (" " + self) + (" " + "-u") + (" " + "\"$0\"")
  }

  lemma HeadWords(self: string)
    requires self != "" && ' ' !in self
    ensures FromDelim(ExecHead(self), ' ', false, false) == ["exec", self, "-u", "\"$0\""]
  {
    hide FromDelim;
    ExecStart();
    OneMoreWord("exec", self);
    OneMoreWord("exec" + (" " + self), "-u");
    OneMoreWord("exec" + (" " + self) + (" " + "-u"), "\"$0\"");
  }

  lemma ExecStart()
    ensures FromDelim("exec", ' ', false, false) == ["exec"]
  {
    PiecesExtend("", "exec", ' ');
    assert "" + "exec" == "exec";
    assert Pieces("", ' ') == [""];
    assert Pieces("exec", ' ') == ["exec"];
    assert ["exec"][..0] == [];
  }

  lemma ExecText(self: string, name: string)
    ensures ExecLine(self, name)
         == ExecHead(self) + (" " + name) + (" " + "\"$@\"")
  {
    assert "exec " == "exec" + " ";
    assert " -u \"$0\" " == (" " + "-u") + (" " + "\"$0\"") + " ";
    assert " \"$@\"" == " " + "\"$@\"";
  }
}
