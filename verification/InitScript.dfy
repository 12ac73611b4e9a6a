/**
 Init scripts with an embedded unit file: the text that service.c generates, and how
 sysvinit.c finds the unit in it again.  The comment block follows section 22.3 of LSB
 Core 5.0 (comment conventions for init scripts).
 */
module InitScript {
  import opened Basics
  import opened TextLines
  import opened UnitFile
  import opened UnitFileProofs

  const BEGIN_INFO := "### BEGIN INIT INFO"
  const END_INFO := "### END INIT INFO"
  const PROVIDES := "# Provides:"
  const BEGIN_EMBED := ":<<SYSVKIT"
  const END_EMBED := "SYSVKIT"

  /** The parts of `struct service` that the script shows. */
  datatype Service = Service(name: string, required: seq<string>, should: seq<string>, unit: Unit)

  // ----- the script -----

  function Spaces(n: nat): (s: string)
    ensures |s| == n && forall i :: 0 <= i < n ==> s[i] == ' '
  {
    seq(n, i requires 0 <= i < n => ' ')
  }

  /** printf's %-Ns. */
  function Pad(s: string, n: nat): (r: string) {
    if |s| < n then s + Spaces(n - |s|) else s
  }

  function Words(ws: seq<string>): (s: string) {
    if ws == [] then "" else " " + (ws[0] + Words(ws[1..]))
  }

  function InfoLine(tag: string, width: nat, text: string): (s: string) {
    "# " + (Pad(tag, width) + text)
  }

  function ProvidesLine(name: string): (s: string) {
    InfoLine("Provides:", 22, name)
  }

  /** The comment block between its Provides line and its end. */
  function Info(svc: Service): (r: seq<string>) {
    (if svc.required != [] then [InfoLine("Required-Start:", 21, Words(svc.required))] else [])
    + ((if svc.should != [] then [InfoLine("Should-Start:", 21, Words(svc.should))] else [])
    + ([InfoLine("Default-Start:", 22, "2 3 4 5")]
    + (match Get(svc.unit, "Unit", "Description")
       case None => []
       case Some(text) => [InfoLine("Short-Description", 22, text)])))
  }

  function ExecLine(self: string, name: string): (s: string) {
    "exec " + (self + (" -u \"$0\" " + (name + " \"$@\"")))
  }

  function Concat(parts: seq<string>): (s: string) {
    if parts == [] then "" else parts[0] + Concat(parts[1..])
  }

  /** The script, cut where the searches of the parser stop. */
  function Parts(svc: Service, self: string, order: seq<Listing>): (r: seq<string>)
    requires Lists(svc.unit, order)
  {
    [Lines(["#!/bin/sh", ""]), Lines([BEGIN_INFO]), Lines([ProvidesLine(svc.name)]),
     Lines(Info(svc)), Lines([END_INFO]),
     Lines(["", ExecLine(self, svc.name), ""]), Lines([BEGIN_EMBED]), Print(svc.unit, order), Lines([END_EMBED])]
  }

  /** service_to_byte_array; `order` is how the tables of the unit enumerate. */
  function Script(svc: Service, self: string, order: seq<Listing>): (s: string)
    requires Lists(svc.unit, order)
  {
    Concat(Parts(svc, self, order))
  }

  // ----- finding the unit -----

  /** The lines and the line prefix that the parser looks for. */
  datatype Markers = Markers(beginInfo: string, prov: string, endInfo: string, beginEmbed: string, endEmbed: string)

  const MARKERS := Markers(BEGIN_INFO, PROVIDES, END_INFO, BEGIN_EMBED, END_EMBED)

  datatype Extracted = Invalid | Missing | Found(beg: nat, end: nat)

  /** Whether the first word on the line, after the prefix, is the name. */
  predicate Provides(line: string, prefix: string, name: string)
    requires prefix <= line
  {
    var facility := Split(line[|prefix|..], IsBlank).1;
    name <= facility && (|facility| == |name| || IsBlank(facility[|name|]))
  }

  /** sysvinit_parse_init_script up to where it parses the embedded unit: the part of the text that holds it. */
  function Extract(m: Markers, txt: string, name: string): (r: Extracted)
    ensures r.Found? ==> r.beg <= r.end <= |txt|
  {
    match FindLine(txt, 0, m.beginInfo, true)
    case None => Invalid
    case Some(begin) =>
      match FindNext(txt, begin, m.prov, false)
      case None => Invalid
      case Some(prov) =>
        if !Provides(txt[prov.beg..prov.end], m.prov, name) then Missing else ExtractAfter(m, txt, prov)
  }

  /** The searches that follow the Provides line. */
  function ExtractAfter(m: Markers, txt: string, prov: Span): (r: Extracted)
    requires prov.end <= |txt|
    ensures r.Found? ==> r.beg <= r.end <= |txt|
  {
    match FindNext(txt, prov, m.endInfo, true)
    case None => Invalid
    case Some(end) =>
      match FindNext(txt, end, m.beginEmbed, true)
      case None => Missing
      case Some(embed) =>
        match FindNext(txt, embed, m.endEmbed, true)
        case None => Invalid
        case Some(last) => Found(embed.end + 1, last.beg)
  }
}
