/**
 Searching a text for whole lines or line prefixes, as text.c does it: a line cursor
 that successive searches move forward.
 */
module TextLines {
  import opened Basics

  datatype Span = Span(beg: nat, end: nat)

  /** The end of the line that starts at `i`: a newline, a NUL, or the end of the text. */
  function LineEnd(txt: string, i: nat): (e: nat)
    requires i <= |txt|
    ensures i <= e <= |txt|
    decreases |txt| - i
  {
    if i < |txt| && InLine(txt[i]) then LineEnd(txt, i + 1) else i
  }

  /** Whether a line is the wanted string, or starts with it. */
  predicate Matches(line: string, want: string, whole: bool) {
    if whole then line == want else want <= line
  }

  /** The first matching line from the line start `i` on. */
  function FindLine(txt: string, i: nat, want: string, whole: bool): (r: Option<Span>)
    ensures r.Some? ==> i <= r.value.beg <= r.value.end <= |txt|
    ensures r.Some? ==> Matches(txt[r.value.beg..r.value.end], want, whole)
    decreases |txt| - i
  {
    if i >= |txt| || txt[i] == '\0' then None
    else
      var e := LineEnd(txt, i);
      if Matches(txt[i..e], want, whole) then Some(Span(i, e)) else FindLine(txt, e + 1, want, whole)
  }

  /** The first matching line after the line `l`. */
  function FindNext(txt: string, l: Span, want: string, whole: bool): (r: Option<Span>)
    requires l.end <= |txt|
    ensures r.Some? ==> l.end < r.value.beg <= r.value.end <= |txt|
    ensures r.Some? ==> Matches(txt[r.value.beg..r.value.end], want, whole)
  {
    if l.end + 1 >= |txt| || txt[l.end] == '\0' then None else FindLine(txt, l.end + 1, want, whole)
  }

  // ----- texts made of lines -----

  ghost predicate IsLine(s: string) {
    All(s, InLine)
  }

  ghost predicate AreLines(ls: seq<string>) {
    forall i :: 0 <= i < |ls| ==> IsLine(ls[i])
  }

  function Lines(ls: seq<string>): (s: string) {
    if ls == [] then "" else ls[0] + ("\n" + Lines(ls[1..]))
  }

  lemma {:induction false} LineEndAt(txt: string, i: nat, n: nat)
    requires i + n < |txt| && txt[i + n] == '\n' && All(txt[i..i + n], InLine)
    ensures LineEnd(txt, i) == i + n
    decreases n
  {
    if n > 0 {
      assert txt[i..i + n][0] == txt[i];
      assert txt[i + 1..i + n] == txt[i..i + n][1..];
      LineEndAt(txt, i + 1, n - 1);
    }
  }

  /** The string `s` stands in the text at position `i`. */
  ghost predicate At(txt: string, i: nat, s: string) {
    i + |s| <= |txt| && txt[i..i + |s|] == s
  }

  lemma AtParts(txt: string, i: nat, a: string, b: string)
    requires At(txt, i, a + b)
    ensures At(txt, i, a) && At(txt, i + |a|, b)
  {
    var s := txt[i..i + |a + b|];
    assert s[..|a|] == a && s[|a|..] == b;
    assert txt[i..i + |a|] == s[..|a|];
    assert txt[i + |a|..i + |a| + |b|] == s[|a|..];
  }

  /** A line that stands in the text ends where its newline stands. */
  lemma LineAt(txt: string, i: nat, line: string)
    requires IsLine(line) && At(txt, i, line) && At(txt, i + |line|, "\n")
    ensures LineEnd(txt, i) == i + |line| && txt[i..LineEnd(txt, i)] == line
    ensures i + |line| < |txt| && txt[i] != '\0' && txt[i + |line|] == '\n'
  {
    assert txt[i + |line|] == txt[i + |line|..i + |line| + 1][0];
    assert line != [] ==> txt[i] == txt[i..i + |line|][0];
    LineEndAt(txt, i, |line|);
  }

  /** A line that matches is found where it stands. */
  lemma HitLine(txt: string, i: nat, line: string, want: string, whole: bool)
    requires IsLine(line) && At(txt, i, line) && At(txt, i + |line|, "\n") && Matches(line, want, whole)
    ensures FindLine(txt, i, want, whole) == Some(Span(i, i + |line|))
  {
    hide LineEnd, Matches, At;
    LineAt(txt, i, line);
  }

  /** A line that does not match is passed over. */
  lemma MissLine(txt: string, i: nat, line: string, want: string, whole: bool)
    requires IsLine(line) && At(txt, i, line) && At(txt, i + |line|, "\n") && !Matches(line, want, whole)
    ensures FindLine(txt, i, want, whole) == FindLine(txt, i + |line| + 1, want, whole)
  {
    hide LineEnd, Matches, At;
    LineAt(txt, i, line);
  }

  lemma {:induction false} SkipLines(txt: string, i: nat, ls: seq<string>, want: string, whole: bool)
    requires At(txt, i, Lines(ls)) && AreLines(ls)
    requires forall k :: 0 <= k < |ls| ==> !Matches(ls[k], want, whole)
    ensures FindLine(txt, i, want, whole) == FindLine(txt, i + |Lines(ls)|, want, whole)
    decreases |ls|
  {
    hide At, FindLine, Matches, IsLine;
    if ls != [] {
      var line, rest := ls[0], ls[1..];
      assert !Matches(line, want, whole) && IsLine(line);
      AtParts(txt, i, line, "\n" + Lines(rest));
      AtParts(txt, i + |line|, "\n", Lines(rest));
      MissLine(txt, i, line, want, whole);
      SkipLines(txt, i + |line| + 1, rest, want, whole);
    }
  }

  lemma {:induction false} LinesAppend(a: seq<string>, b: seq<string>)
    ensures Lines(a + b) == Lines(a) + Lines(b)
    decreases |a|
  {
    if a == [] {
      assert a + b == b;
    } else {
      assert (a + b)[1..] == a[1..] + b && (a + b)[0] == a[0];
      LinesAppend(a[1..], b);
      assert a[0] + ("\n" + (Lines(a[1..]) + Lines(b))) == (a[0] + ("\n" + Lines(a[1..]))) + Lines(b);
    }
  }

  // ----- the code -----

  /** `struct text` for a line of a larger text. */
  class LineCursor {
    const txt: string
    var beg: nat
    var end: nat

    constructor (txt: string, s: Span)
      ensures this.txt == txt && beg == s.beg && end == s.end
    {
      this.txt, this.beg, this.end := txt, s.beg, s.end;
    }

    /** text_next_line_prefix and text_next_line_equals: moves to the next matching line, if there is one. */
    method Next(want: string, whole: bool) returns (found: bool)
      requires end <= |txt| && IsLine(want)
      modifies this
      ensures found <==> FindNext(txt, old(Span(beg, end)), want, whole).Some?
      ensures found ==> FindNext(txt, old(Span(beg, end)), want, whole) == Some(Span(beg, end))
      ensures found ==> old(end) < beg <= end <= |txt|
    {
      if end + 1 >= |txt| || txt[end] == '\0' {
        return false;
      }
      var s := Search(txt, end + 1, want, whole);
      if s.None? {
        return false;
      }
      beg, end := s.value.beg, s.value.end;
      found := true;
    }
  }

  /** The loop of the four search functions. */
  method Search(txt: string, from: nat, want: string, whole: bool) returns (r: Option<Span>)
    requires IsLine(want)
    ensures r == FindLine(txt, from, want, whole)
  {
    var p := from;
    while p < |txt| && txt[p] != '\0'
      invariant FindLine(txt, from, want, whole) == FindLine(txt, p, want, whole)
      decreases |txt| - p
    {
      var k := MatchLength(txt, p, want);
      var q := p + k;
      LongestMatch(txt, p, want, k);
      var matched := k == |want|;
      if matched && whole && (q == |txt| || !InLine(txt[q])) {
        return Some(Span(p, q));
      }
      q := SkipToLineEnd(txt, q);
      if matched && !whole {
        return Some(Span(p, q));
      }
      p := q + 1;
    }
    r := None;
  }

  /** How far text and wanted string agree from `p` on. */
  method MatchLength(txt: string, p: nat, want: string) returns (k: nat)
    requires p <= |txt| && IsLine(want)
    ensures k <= |want| && p + k <= |txt| && txt[p..p + k] == want[..k]
    ensures k == |want| || p + k == |txt| || txt[p + k] != want[k]
  {
    k := 0;
    while p + k < |txt| && txt[p + k] != '\0' && k < |want| && txt[p + k] == want[k]
      invariant k <= |want| && p + k <= |txt| && txt[p..p + k] == want[..k]
    {
      assert txt[p..p + k + 1] == txt[p..p + k] + [txt[p + k]];
      k := k + 1;
    }
  }

  method SkipToLineEnd(txt: string, from: nat) returns (q: nat)
    requires from <= |txt|
    ensures q == LineEnd(txt, from)
  {
    q := from;
    while q < |txt| && InLine(txt[q])
      invariant from <= q <= |txt| && LineEnd(txt, from) == LineEnd(txt, q)
    {
      q := q + 1;
    }
  }

  lemma {:induction false} LineEndFrom(txt: string, p: nat, k: nat)
    requires p + k <= |txt| && All(txt[p..p + k], InLine)
    ensures LineEnd(txt, p) == LineEnd(txt, p + k)
    decreases k
  {
    if k > 0 {
      assert txt[p..p + k][0] == txt[p];
      assert txt[p + 1..p + k] == txt[p..p + k][1..];
      LineEndFrom(txt, p + 1, k - 1);
    }
  }

  /** Whether the line at `p` matches can be told from the longest agreement with the wanted string. */
  lemma LongestMatch(txt: string, p: nat, want: string, k: nat)
    requires p <= |txt| && IsLine(want) && k <= |want| && p + k <= |txt| && txt[p..p + k] == want[..k]
    requires k == |want| || p + k == |txt| || txt[p + k] != want[k]
    ensures LineEnd(txt, p) == LineEnd(txt, p + k)
    ensures var line := txt[p..LineEnd(txt, p)];
      && (want <= line <==> k == |want|)
      && (line == want <==> k == |want| && LineEnd(txt, p + k) == p + k)
  {
    LineEndFrom(txt, p, k);
    var e := LineEnd(txt, p);
    var line := txt[p..e];
    assert line[..k] == txt[p..p + k];
    if k < |want| && k < |line| {
      assert line[k] == txt[p + k];
    }
    hide LineEnd;
  }
}
