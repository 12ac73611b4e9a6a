/**
 What the parser makes of a line does not depend on the lines after it.  This carries a
 change within one line, such as a continuation, through a file with any lines before it.
 */
module UnitLocality {
  import opened Basics
  import opened UnitFile
  import opened UnitFileProofs

  lemma AfterFirst(a: string, x: string)
    requires a != []
    ensures (a + x)[0] == a[0] && (a + x)[1..] == a[1..] + x
  {
  }

  lemma {:induction false} SplitLocal(a: string, x: string, y: string, f: char -> bool) returns (c: string)
    requires |Split(a + x, f).1| > |x|
    ensures c != [] && |c| <= |a| && a == Split(a + x, f).0 + c
    ensures Split(a + x, f).1 == c + x && Split(a + y, f) == (Split(a + x, f).0, c + y)
  {
    var n := Lead(a + x, f);
    assert n < |a|;
    LeadLocal(a, x, y, f);
    c := a[n..];
    assert (a + x)[..n] == (a + y)[..n] == a[..n];
    assert (a + x)[n..] == c + x && (a + y)[n..] == c + y;
  }

  lemma {:induction false} LeadLocal(a: string, x: string, y: string, f: char -> bool)
    requires Lead(a + x, f) < |a|
    ensures Lead(a + y, f) == Lead(a + x, f)
  {
    AfterFirst(a, x);
    AfterFirst(a, y);
    if f(a[0]) {
      LeadLocal(a[1..], x, y, f);
    }
  }

  lemma {:induction false} SkipLocal(a: string, x: string, y: string) returns (c: string)
    requires |SkipComments(a + x)| > |x|
    ensures c != [] && |c| <= |a| && SkipComments(a + x) == c + x && SkipComments(a + y) == c + y
    decreases |a|
  {
    hide Split;
    AfterFirst(a, x);
    AfterFirst(a, y);
    c := a;
    if CommentChar(a[0]) {
      var rest := Split(a + x, InLine).1;
      var d := SplitLocal(a, x, y, InLine);
      AfterFirst(d, x);
      AfterFirst(d, y);
      assert d != a by {
        SplitMoves(a + x, InLine);
      }
      c := SkipLocal(d[1..], x, y);
    }
  }

  lemma SplitMoves(s: string, f: char -> bool)
    requires s != [] && f(s[0])
    ensures |Split(s, f).1| < |s|
  {
  }

  lemma {:induction false} ScanLocal(a: string, x: string, y: string, v: string) returns (c: string)
    requires |ScanValue(a + x, v).1| > |x|
    ensures c != [] && |c| <= |a|
    ensures ScanValue(a + x, v).1 == c + x && ScanValue(a + y, v) == (ScanValue(a + x, v).0, c + y)
    decreases |a|
  {
    hide SkipComments, Push;
    var s, t := a + x, a + y;
    AfterFirst(a, x);
    AfterFirst(a, y);
    c := a;
    if ValueChar(a[0]) {
      if |a| == 1 {
        LastCharacter(a, x, v);
      } else {
        assert s[1] == a[1] && t[1] == a[1] && s[2..] == a[2..] + x && t[2..] == a[2..] + y;
        if a[0] == '\\' && a[1] == '\n' {
          var d := SkipLocal(a[2..], x, y);
          c := ScanLocal(d, x, y, Push(v, ' '));
        } else {
          c := ScanLocal(a[1..], x, y, Push(v, if a[0] == '\t' then ' ' else a[0]));
        }
      }
    }
  }

  /** A scan that goes past the last character of `a` stops in `x`. */
  lemma LastCharacter(a: string, x: string, v: string)
    requires |a| == 1 && ValueChar(a[0])
    ensures |ScanValue(a + x, v).1| <= |x|
  {
    AfterFirst(a, x);
    hide SkipComments, Push;
    assert a[1..] + x == x;
  }

  // ----- one line -----

  lemma CommentLocal(a: string, x: string, y: string, section: string, u: Unit) returns (c: string)
    requires a != [] && ParseComment(a + x, section, u).Next? && |ParseComment(a + x, section, u).rest| >= |x|
    ensures |c| < |a| && ParseComment(a + x, section, u) == Next(section, u, c + x)
    ensures ParseComment(a + y, section, u) == Next(section, u, c + y)
  {
    hide Split;
    var d := SplitLocal(a, x, y, InLine);
    AfterFirst(d, x);
    AfterFirst(d, y);
    c := d[1..];
  }

  lemma HeaderLocal(a: string, x: string, y: string, u: Unit) returns (c: string)
    requires a != [] && ParseHeader(a + x, u).Next? && |ParseHeader(a + x, u).rest| >= |x|
    ensures |c| < |a| && ParseHeader(a + x, u) == ParseHeader(a + x, u).(rest := c + x)
    ensures ParseHeader(a + y, u) == ParseHeader(a + x, u).(rest := c + y)
  {
    hide Split;
    AfterFirst(a, x);
    AfterFirst(a, y);
    var d := SplitLocal(a[1..], x, y, NameChar);
    AfterFirst(d, x);
    AfterFirst(d, y);
    assert |d| >= 2;
    AfterFirst(d[1..], x);
    AfterFirst(d[1..], y);
    c := d[2..];
    assert (d + x)[2..] == c + x && (d + y)[2..] == c + y;
  }

  /** The parts of a pair, each of which ends before `x`. */
  lemma PairLocal(a: string, x: string, y: string, section: string, u: Unit) returns (c: string)
    requires a != [] && ParsePair(a + x, section, u).Next? && |ParsePair(a + x, section, u).rest| >= |x|
    ensures |c| < |a| && ParsePair(a + x, section, u) == ParsePair(a + x, section, u).(rest := c + x)
    ensures ParsePair(a + y, section, u) == ParsePair(a + x, section, u).(rest := c + y)
  {
    hide Split, ScanValue, Update, TrimLast;
    var (key, p) := Split(a + x, KeyChar);
    SplitShrinks(a + x, KeyChar);
    var q := Split(p, IsBlank).1;
    SplitShrinks(p, IsBlank);
    SplitShrinks(q[1..], IsBlank);
    var d := SplitLocal(a, x, y, KeyChar);
    var e := SplitLocal(d, x, y, IsBlank);
    AfterFirst(d, x);
    AfterFirst(d, y);
    AfterFirst(e, x);
    AfterFirst(e, y);
    var g := SplitLocal(e[1..], x, y, IsBlank);
    AfterFirst(g, x);
    AfterFirst(g, y);
    var h := ScanLocal(g, x, y, "");
    AfterFirst(h, x);
    AfterFirst(h, y);
    c := h[1..];
  }

  lemma SplitShrinks(s: string, f: char -> bool)
    ensures |Split(s, f).1| <= |s|
  {
  }

  /** If a line ends before `x`, it is read in the same way before any other text. */
  lemma LineLocal(a: string, x: string, y: string, section: string, u: Unit) returns (c: string)
    requires a != [] && ParseLine(a + x, section, u).Next? && |ParseLine(a + x, section, u).rest| >= |x|
    ensures |c| < |a| && ParseLine(a + x, section, u) == ParseLine(a + x, section, u).(rest := c + x)
    ensures ParseLine(a + y, section, u) == ParseLine(a + x, section, u).(rest := c + y)
  {
    AfterFirst(a, x);
    AfterFirst(a, y);
    hide ParseComment, ParseHeader, ParsePair;
    if a[0] == '\n' {
      c := a[1..];
    } else if CommentChar(a[0]) {
      c := CommentLocal(a, x, y, section, u);
    } else if a[0] == '[' {
      c := HeaderLocal(a, x, y, u);
    } else {
      c := PairLocal(a, x, y, section, u);
    }
  }

  // ----- whole files -----

  /** The state in which the parser, having read exactly `pre`, stands before `x`, if it ever does. */
  function Arrives(pre: string, x: string, section: string, u: Unit): (r: Option<(string, Unit)>)
    decreases |pre|
  {
    if pre == [] then Some((section, u))
    else
      match ParseLine(pre + x, section, u)
      case Bad => None
      case Next(section', u', rest) =>
        if |x| <= |rest| < |pre + x| then Arrives(rest[..|rest| - |x|], x, section', u') else None
  }

  /** The parser goes on from there as if there had been nothing before. */
  lemma {:induction false} GoesOn(pre: string, x: string, section: string, u: Unit)
    requires Arrives(pre, x, section, u).Some?
    ensures var (section', u') := Arrives(pre, x, section, u).value;
      ParseFrom(pre + x, section, u) == ParseFrom(x, section', u')
    decreases |pre|
  {
    hide ParseLine;
    if pre == [] {
      assert pre + x == x;
    } else {
      var c := LineLocal(pre, x, x, section, u);
      var line := ParseLine(pre + x, section, u);
      assert line.rest[..|line.rest| - |x|] == c;
      GoesOn(c, x, line.section, line.u);
    }
  }

  /** Whether it arrives, and in which state, does not depend on what comes there. */
  lemma {:induction false} ArrivesAnyway(pre: string, x: string, y: string, section: string, u: Unit)
    requires Arrives(pre, x, section, u).Some?
    ensures Arrives(pre, y, section, u) == Arrives(pre, x, section, u)
    decreases |pre|
  {
    hide ParseLine;
    if pre != [] {
      var c := LineLocal(pre, x, y, section, u);
      var line := ParseLine(pre + x, section, u);
      assert line.rest[..|line.rest| - |x|] == c;
      assert (c + y)[..|c + y| - |y|] == c;
      ArrivesAnyway(c, x, y, line.section, line.u);
    }
  }

  /**
   In any file, a value that is broken at a space by a continuation, with comment lines after the
   break, reads like the value in one piece, whatever stands before its line.
   */
  lemma ContinuationAnywhere(
    pre: string, key: string, b1: string, b2: string, a: string, cs: seq<Comment>, b: string)
    requires key != [] && All(key, KeyChar) && All(b1, IsBlank) && All(b2, IsBlank)
    requires a != [] && All(a, ValueChar) && !IsBlank(a[0])
    requires AreComments(cs) && (b != [] ==> !CommentChar(b[0]))
    requires Arrives(pre, key + (b1 + ("=" + (b2 + (a + ("\\\n" + (CommentText(cs) + b)))))), "", map[]).Some?
    ensures Parse(pre + (key + (b1 + ("=" + (b2 + (a + ("\\\n" + (CommentText(cs) + b))))))))
         == Parse(pre + (key + (b1 + ("=" + (b2 + (a + (" " + b)))))))
  {
    hide ParseLine, ParseFrom, Arrives, CommentText;
    var broken := key + (b1 + ("=" + (b2 + (a + ("\\\n" + (CommentText(cs) + b))))));
    var whole := key + (b1 + ("=" + (b2 + (a + (" " + b)))));
    ArrivesAnyway(pre, broken, whole, "", map[]);
    GoesOn(pre, broken, "", map[]);
    GoesOn(pre, whole, "", map[]);
    var (section, u) := Arrives(pre, broken, "", map[]).value;
    ContinuationPreservesMeaning(key, b1, b2, a, cs, b, section, u);
  }
}
