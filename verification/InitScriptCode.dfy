/** service.c and sysvinit.c as they run: a growing byte array, and one line cursor moved by successive searches. */
module InitScriptCode {
  import opened Basics
  import opened TextLines
  import opened UnitFile
  import opened UnitParser
  import opened InitScript

  /** The text with one more line. */
  lemma AppendLine(ba: string, line: string, ls: seq<string>)
    ensures ba + Lines([line] + ls) == (ba + line + "\n") + Lines(ls)
  {
    assert ([line] + ls)[1..] == ls;
  }

  method WordsToText(start: string, ws: seq<string>) returns (ba: string)
    ensures ba == start + Words(ws)
  {
    ba := start;
    for i := 0 to |ws|
      invariant ba + Words(ws[i..]) == start + Words(ws)
    {
      assert ws[i..][1..] == ws[i + 1..];
      assert ba + (" " + (ws[i] + Words(ws[i + 1..]))) == (ba + " " + ws[i]) + Words(ws[i + 1..]);
      ba := ba + " " + ws[i];
    }
  }

  method ListLine(start: string, tag: string, ws: seq<string>) returns (ba: string)
    ensures ba == start + Lines(if ws != [] then [InfoLine(tag, 21, Words(ws))] else [])
  {
    ba := start;
    if ws != [] {
      ba := ba + "# " + Pad(tag, 21);
      ba := WordsToText(ba, ws);
      ba := ba + "\n";
      AppendLine(start, InfoLine(tag, 21, Words(ws)), []);
      assert [InfoLine(tag, 21, Words(ws))] + [] == [InfoLine(tag, 21, Words(ws))];
    }
  }

  /** The comment block after its Provides line. */
  method InfoToText(start: string, svc: Service) returns (ba: string)
    ensures ba == start + Lines(Info(svc))
  {
    hide InfoLine, Words, Lines, Get;
    var a := if svc.required != [] then [InfoLine("Required-Start:", 21, Words(svc.required))] else [];
    var b := if svc.should != [] then [InfoLine("Should-Start:", 21, Words(svc.should))] else [];
    var c := [InfoLine("Default-Start:", 22, "2 3 4 5")];
    var text := Get(svc.unit, "Unit", "Description");
    var d := if text.Some? then [InfoLine("Short-Description", 22, text.value)] else [];
    ba := ListLine(start, "Required-Start:", svc.required);
    ba := ListLine(ba, "Should-Start:", svc.should);
    OneLineText(ba, c[0]);
    ba := ba + c[0] + "\n";
    NoLines();
    if text.Some? {
      OneLineText(ba, d[0]);
      ba := ba + d[0] + "\n";
    }
    FourBlocks(start, a, b, c, d);
  }

  lemma FourBlocks(start: string, a: seq<string>, b: seq<string>, c: seq<string>, d: seq<string>)
    ensures start + Lines(a) + Lines(b) + Lines(c) + Lines(d) == start + Lines(a + (b + (c + d)))
  {
    hide Lines;
    LinesAppend(c, d);
    LinesAppend(b, c + d);
    LinesAppend(a, b + (c + d));
  }

  lemma NoLines()
    ensures Lines([]) == ""
  {
  }

  lemma OneLineText(ba: string, line: string)
    ensures ba + Lines([line]) == ba + line + "\n"
  {
    AppendLine(ba, line, []);
    assert [line] + [] == [line];
  }

  method AddLine(start: string, line: string) returns (ba: string)
    ensures ba == start + Lines([line])
  {
    OneLineText(start, line);
    ba := start + line + "\n";
  }

  method AddProvides(start: string, name: string) returns (ba: string)
    ensures ba == start + Lines([ProvidesLine(name)])
  {
    OneLineText(start, ProvidesLine(name));
    ba := start + "# " + Pad("Provides:", 22) + name + "\n";
  }

  method AddCode(start: string, self: string, name: string) returns (ba: string)
    ensures ba == start + Lines(["", ExecLine(self, name), ""])
  {
    CodeText(start, ExecLine(self, name));
    ba := start + "\n" + ExecLine(self, name) + "\n\n";
  }

  /** service_to_byte_array. */
  method ServiceToText(svc: Service, self: string, order: seq<Listing>) returns (ba: string)
    requires Lists(svc.unit, order)
    ensures ba == Script(svc, self, order)
  {
    hide Info, Print, Concat, Lines, ExecLine, ProvidesLine, BEGIN_INFO, END_INFO, BEGIN_EMBED, END_EMBED;
    ba := FirstLines();
    ba := AddLine(ba, BEGIN_INFO);
    ba := AddProvides(ba, svc.name);
    ba := InfoToText(ba, svc);
    ba := AddLine(ba, END_INFO);
    ba := AddCode(ba, self, svc.name);
    ba := AddLine(ba, BEGIN_EMBED);
    var text := UnitText(svc.unit, order);
    ba := ba + text;
    ba := AddLine(ba, END_EMBED);
    ConcatAll(Parts(svc, self, order));
  }

  method FirstLines() returns (ba: string)
    ensures ba == Lines(["#!/bin/sh", ""])
  {
    ba := "#!/bin/sh\n\n";
    assert ["#!/bin/sh", ""][1..] == [""];
    assert Lines([""]) == "\n";
  }

  method UnitText(u: Unit, order: seq<Listing>) returns (text: string)
    requires Lists(u, order)
    ensures text == Print(u, order)
  {
    var table := new UnitTable();
    table.sections := u;
    text := table.ToText(order);
  }

  lemma CodeText(ba: string, exec: string)
    ensures ba + Lines(["", exec, ""]) == ba + "\n" + exec + "\n\n"
  {
    assert Lines(["", exec, ""]) == "" + ("\n" + Lines([exec, ""])) by { assert ["", exec, ""][1..] == [exec, ""]; }
    assert Lines([exec, ""]) == exec + ("\n" + Lines([""])) by { assert [exec, ""][1..] == [""]; }
    assert Lines([""]) == "\n";
  }

  lemma ConcatAll(p: seq<string>)
    requires |p| == 9
    ensures Concat(p) == p[0] + p[1] + p[2] + p[3] + p[4] + p[5] + p[6] + p[7] + p[8]
  {
    ConcatFrom(p, 9);
    assert Concat(p[9..]) == "";
    assert Front(p, 1) == "" + p[0] == p[0];
    assert Front(p, 3) == Front(p, 2) + p[2] && Front(p, 2) == Front(p, 1) + p[1];
    assert Front(p, 5) == Front(p, 4) + p[4] && Front(p, 4) == Front(p, 3) + p[3];
    assert Front(p, 7) == Front(p, 6) + p[6] && Front(p, 6) == Front(p, 5) + p[5];
    assert Front(p, 9) == Front(p, 8) + p[8] && Front(p, 8) == Front(p, 7) + p[7];
  }

  function Front(p: seq<string>, k: nat): (s: string)
    requires k <= |p|
  {
    if k == 0 then "" else Front(p, k - 1) + p[k - 1]
  }

  lemma {:induction false} ConcatFrom(p: seq<string>, k: nat)
    requires k <= |p|
    ensures Concat(p) == Front(p, k) + Concat(p[k..])
  {
    if k > 0 {
      ConcatFrom(p, k - 1);
      assert p[k - 1..][1..] == p[k..];
    } else {
      assert p[0..] == p;
    }
  }

  // ----- reading -----

  /** The check of the Provides line: skip blanks, then compare with the name. */
  method NameMatches(txt: string, beg: nat, end: nat, prefix: string, name: string) returns (ok: bool)
    requires beg <= end <= |txt| && prefix <= txt[beg..end]
    ensures ok <==> Provides(txt[beg..end], prefix, name)
  {
    hide Split;
    var p := ScanWhile(txt, beg + |prefix|, end, IsBlank);
    assert txt[beg..end][|prefix|..] == txt[beg + |prefix|..end];
    ghost var facility := txt[p..end];
    var k := 0;
    while p + k < end && k < |name| && txt[p + k] == name[k]
      invariant 0 <= k <= |name| && p + k <= end && txt[p..p + k] == name[..k]
    {
      assert txt[p..p + k + 1] == txt[p..p + k] + [txt[p + k]];
      k := k + 1;
    }
    assert facility[..k] == name[..k];
    ok := k == |name| && (p + k == end || IsBlank(txt[p + k]));
  }

  /** sysvinit_parse_init_script up to the narrowed text. */
  method FindEmbedded(m: Markers, txt: string, name: string) returns (r: Extracted)
    requires IsLine(m.beginInfo) && IsLine(m.prov) && IsLine(m.endInfo) && IsLine(m.beginEmbed) && IsLine(m.endEmbed)
    ensures r == Extract(m, txt, name)
  {
    hide FindLine, FindNext, Provides;
    var first := Search(txt, 0, m.beginInfo, true);
    if first.None? {
      return Invalid;
    }
    var line := new LineCursor(txt, first.value);
    var found := line.Next(m.prov, false);
    if !found {
      return Invalid;
    }
    var ok := NameMatches(txt, line.beg, line.end, m.prov, name);
    if !ok {
      return Missing;
    }
    found := line.Next(m.endInfo, true);
    if !found {
      return Invalid;
    }
    found := line.Next(m.beginEmbed, true);
    if !found {
      return Missing;
    }
    var p := line.end + 1;
    found := line.Next(m.endEmbed, true);
    if !found {
      return Invalid;
    }
    r := Found(p, line.beg);
  }

  /** sysvinit_parse_init_script: the unit that the script embeds, or null. */
  method ReadInitScript(txt: string, name: string) returns (u: UnitTable?)
    ensures var r := Extract(MARKERS, txt, name);
      && (u == null <==> !r.Found? || Parse(txt[r.beg..r.end]).None?)
      && (u != null ==> fresh(u) && r.Found? && Parse(txt[r.beg..r.end]) == Some(u.sections))
  {
    var r := FindEmbedded(MARKERS, txt, name);
    if !r.Found? {
      return null;
    }
    u := ParseUnitFile(txt[r.beg..r.end]);
  }
}
