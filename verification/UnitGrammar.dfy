/** Which lines a unit file may have, with the limits as numbers, and that spacing means nothing. */
module UnitGrammar {
  import opened Basics
  import opened UnitFile
  import opened UnitFileProofs
  import opened StrList

  // ----- spacing -----

  /** A word of a value. */
  ghost predicate IsWord(w: string) {
    w != "" && forall i :: 0 <= i < |w| ==> '!' <= w[i] <= '~'
  }

  ghost predicate IsGap(g: string) {
    g != "" && All(g, IsBlank)
  }

  /** Words with gaps between them. */
  function Spread(ws: seq<string>, gaps: seq<string>): (s: string)
    requires |gaps| == |ws|
  {
    if ws == [] then "" else Spread(ws[..|ws| - 1], gaps[..|gaps| - 1]) + (gaps[|gaps| - 1] + ws[|ws| - 1])
  }

  lemma {:induction false} PushedAppend(acc: string, a: string, b: string)
    ensures Pushed(acc, a + b) == Pushed(Pushed(acc, a), b)
    decreases |a|
  {
    if a == [] {
      assert a + b == b;
    } else {
      assert (a + b)[1..] == a[1..] + b;
      PushedAppend(Push(acc, if a[0] == '\t' then ' ' else a[0]), a[1..], b);
    }
  }

  lemma {:induction false} PushedWord(acc: string, w: string)
    requires forall i :: 0 <= i < |w| ==> '!' <= w[i] <= '~'
    ensures Pushed(acc, w) == acc + w
    decreases |w|
  {
    if w == [] {
      assert acc + w == acc;
    } else {
      PushedWord(acc + [w[0]], w[1..]);
      assert acc + [w[0]] + w[1..] == acc + w;
    }
  }

  lemma {:induction false} PushedGap(acc: string, g: string)
    requires IsGap(g)
    ensures Pushed(acc, g) == if acc != "" && acc[|acc| - 1] == ' ' then acc else acc + " "
    decreases |g|
  {
    var next := Push(acc, ' ');
    assert next[|next| - 1] == ' ';
    if |g| > 1 {
      PushedGap(next, g[1..]);
    } else {
      assert g[1..] == "";
    }
  }

  ghost predicate AreWords(ws: seq<string>) {
    forall i :: 0 <= i < |ws| ==> IsWord(ws[i])
  }

  ghost predicate AreGaps(gaps: seq<string>) {
    forall i :: 0 <= i < |gaps| ==> IsGap(gaps[i])
  }

  /** Gaps of any size and kind between words come out as single spaces. */
  lemma {:induction false} GapsCollapse(first: string, ws: seq<string>, gaps: seq<string>)
    requires IsWord(first) && AreWords(ws) && AreGaps(gaps) && |gaps| == |ws|
    ensures Pushed("", first + Spread(ws, gaps)) == Join([first] + ws, ' ')
    ensures var v := Join([first] + ws, ' '); v != "" && v[|v| - 1] != ' '
    decreases |ws|
  {
    hide Pushed, Join;
    if ws == [] {
      assert first + Spread(ws, gaps) == first && [first] + ws == [first] && "" + first == first;
      PushedWord("", first);
      JoinOne(first);
    } else {
      var init, w, g := ws[..|ws| - 1], ws[|ws| - 1], gaps[|gaps| - 1];
      var front := first + Spread(init, gaps[..|gaps| - 1]);
      GapsCollapse(first, init, gaps[..|gaps| - 1]);
      assert first + Spread(ws, gaps) == front + (g + w);
      hide Spread;
      PushedAppend("", front, g + w);
      OneMoreWord(Join([first] + init, ' '), g, w);
      assert [first] + ws == ([first] + init) + [w];
      JoinSnoc([first] + init, w, ' ');
    }
  }

  lemma JoinOne(w: string)
    ensures Join([w], ' ') == w
  {
  }

  lemma OneMoreWord(v: string, g: string, w: string)
    requires IsGap(g) && IsWord(w) && v != "" && v[|v| - 1] != ' '
    ensures Pushed(v, g + w) == v + [' '] + w
  {
    hide Pushed;
    PushedAppend(v, g, w);
    PushedGap(v, g);
    PushedWord(v + " ", w);
  }

  /** A line of readable characters is read to its end, unless it ends in a backslash. */
  lemma {:induction false} ScanLine(v: string, rest: string, acc: string)
    requires All(v, ValueChar) && (v != [] ==> v[|v| - 1] != '\\')
    ensures ScanValue(v + ("\n" + rest), acc) == (Pushed(acc, v), "\n" + rest)
    decreases |v|
  {
    var s := v + ("\n" + rest);
    if v == [] {
      assert s == "\n" + rest && s[0] == '\n';
    } else {
      assert s[0] == v[0] && s[1..] == v[1..] + ("\n" + rest);
      assert s[1] == if |v| > 1 then v[1] else '\n';
      ScanLine(v[1..], rest, Push(acc, if v[0] == '\t' then ' ' else v[0]));
    }
  }

  lemma {:induction false} SpreadIsReadable(ws: seq<string>, gaps: seq<string>)
    requires AreWords(ws) && AreGaps(gaps) && |gaps| == |ws|
    ensures All(Spread(ws, gaps), ValueChar)
    decreases |ws|
  {
    if ws != [] {
      SpreadIsReadable(ws[..|ws| - 1], gaps[..|gaps| - 1]);
    }
  }

  /** The value that is read from words with gaps between them and perhaps blanks after them. */
  lemma ReadsWords(first: string, ws: seq<string>, gaps: seq<string>, tail: string, rest: string)
    requires IsWord(first) && AreWords(ws) && AreGaps(gaps) && |gaps| == |ws| && All(tail, IsBlank)
    requires var last := if ws == [] then first else ws[|ws| - 1]; tail != "" || last[|last| - 1] != '\\'
    ensures var (v, r) := ScanValue(first + Spread(ws, gaps) + tail + ("\n" + rest), "");
      TrimLast(v) == Join([first] + ws, ' ') && r == "\n" + rest
  {
    hide Spread, ScanValue, Join, Pushed;
    var text := first + Spread(ws, gaps);
    var line := text + tail;
    SpreadIsReadable(ws, gaps);
    TextEnd(first, ws, gaps);
    ScanLine(line, rest, "");
    GapsCollapse(first, ws, gaps);
    PushedAppend("", text, tail);
    var v := Join([first] + ws, ' ');
    if tail == "" {
      assert line == text;
    } else {
      PushedGap(v, tail);
    }
  }

  lemma TextEnd(first: string, ws: seq<string>, gaps: seq<string>)
    requires IsWord(first) && AreWords(ws) && |gaps| == |ws|
    ensures var text := first + Spread(ws, gaps);
      var last := if ws == [] then first else ws[|ws| - 1];
      text != "" && text[|text| - 1] == last[|last| - 1] && text[0] == first[0]
  {
  }

  /**
   Blanks before and after the equals sign, between the words of a value and after them make no
   difference: the line is read like the one with the words joined by single spaces.
   */
  lemma SpacingMeansNothing(
    key: string, b1: string, b2: string, first: string, ws: seq<string>, gaps: seq<string>, tail: string,
    rest: string, section: string, u: Unit)
    requires key != [] && All(key, KeyChar) && All(b1, IsBlank) && All(b2, IsBlank) && All(tail, IsBlank)
    requires IsWord(first) && AreWords(ws) && AreGaps(gaps) && |gaps| == |ws|
    requires var last := if ws == [] then first else ws[|ws| - 1]; last[|last| - 1] != '\\'
    ensures ParseLine(key + (b1 + ("=" + (b2 + (first + Spread(ws, gaps) + tail + ("\n" + rest))))), section, u)
         == ParseLine(key + ("=" + (Join([first] + ws, ' ') + ("\n" + rest))), section, u)
  {
    hide ParseLine, ScanValue, Spread, Join, Update;
    var line := first + Spread(ws, gaps) + tail + ("\n" + rest);
    ReadsWords(first, ws, gaps, tail, rest);
    TextEnd(first, ws, gaps);
    assert line[0] == first[0];
    PairShape(key, b1, b2, line, section, u);
    var singles := seq(|ws|, i => " ");
    SingleSpread(first, ws);
    ReadsWords(first, ws, singles, "", rest);
    TextEnd(first, ws, singles);
    var plain := first + Spread(ws, singles) + "" + ("\n" + rest);
    assert plain == Join([first] + ws, ' ') + ("\n" + rest) && plain[0] == first[0];
    PairShape(key, "", "", plain, section, u);
    assert "" + ("=" + ("" + plain)) == "=" + plain;
  }

  lemma {:induction false} SingleSpread(first: string, ws: seq<string>)
    ensures first + Spread(ws, seq(|ws|, i => " ")) == Join([first] + ws, ' ')
    decreases |ws|
  {
    var singles := seq(|ws|, i => " ");
    if ws == [] {
      assert first + Spread(ws, singles) == first && [first] + ws == [first];
    } else {
      var init, w := ws[..|ws| - 1], ws[|ws| - 1];
      SingleSpread(first, init);
      assert singles[..|ws| - 1] == seq(|init|, i => " ");
      assert [first] + ws == ([first] + init) + [w];
      JoinSnoc([first] + init, w, ' ');
    }
  }

  // ----- what is refused -----

  /**
   A header is accepted exactly if its name is not empty and not longer than 254, and a closing bracket is all
   that follows: `name` is what comes before the first bracket, and `x` the rest of the line.
   */
  lemma HeaderExactly(name: string, x: string, rest: string, section: string, u: Unit)
    requires forall i :: 0 <= i < |name| ==> ' ' <= name[i] <= '~' && name[i] != '[' && name[i] != ']'
    requires (forall i :: 0 <= i < |x| ==> ' ' <= x[i] <= '~') && (x == "" || x[0] == '[' || x[0] == ']')
    ensures ParseLine("[" + (name + (x + ("\n" + rest))), section, u)
         == if x == "]" && 1 <= |name| <= 254 then Next(name, u, rest) else Bad
  {
    hide ParseLine;
    var q := x + ("\n" + rest);
    LineEnds(x, rest);
    AfterName(name, q, section, u);
    if |x| == 1 {
      assert x == [x[0]];
    }
  }

  lemma LineEnds(x: string, rest: string)
    ensures var q := x + ("\n" + rest);
      && |q| > |x|
      && (x == "" ==> q[0] == '\n')
      && (x != "" ==> q[0] == x[0])
      && (|x| == 1 ==> q[1] == '\n' && q[2..] == rest)
      && (|x| > 1 ==> q[1] == x[1])
  {
  }

  lemma AfterName(name: string, q: string, section: string, u: Unit)
    requires All(name, NameChar) && (q == "" || !NameChar(q[0]))
    ensures ParseLine("[" + (name + q), section, u)
         == if name != "" && |name| <= 254 && |q| > 1 && q[0] == ']' && q[1] == '\n' then Next(name, u, q[2..]) else Bad
  {
    var s := "[" + (name + q);
    assert s[0] == '[' && s[1..] == name + q;
    Cut(name, q, NameChar);
    hide Split;
  }

  /** An assignment is accepted exactly if key and value are not too long and a section has begun. */
  lemma AssignmentExactly(
    key: string, b1: string, b2: string, v: string, rest: string, section: string, u: Unit)
    requires key != [] && All(key, KeyChar) && All(b1, IsBlank) && All(b2, IsBlank)
    requires All(v, ValueChar) && (v != "" ==> !IsBlank(v[0]) && v[|v| - 1] != '\\')
    ensures var line := ParseLine(key + (b1 + ("=" + (b2 + (v + ("\n" + rest))))), section, u);
      line.Next? <==> |key| <= 254 && section != "" && |TrimLast(Pushed("", v))| <= 1022
  {
    hide ParseLine, ScanValue, Update, TrimLast;
    var w := v + ("\n" + rest);
    assert w[0] == if v == "" then '\n' else v[0];
    PairShape(key, b1, b2, w, section, u);
    ScanLine(v, rest, "");
  }

  /** A line that has no key, or something other than an equals sign after it, is refused. */
  lemma NoAssignment(key: string, b1: string, x: string, rest: string, section: string, u: Unit)
    requires All(key, KeyChar) && All(b1, IsBlank) && All(x, ValueChar)
    requires x != "" ==> !IsBlank(x[0]) && (b1 == "" ==> !KeyChar(x[0]))
    requires key == "" || x == "" || x[0] != '='
    requires var l := key + b1 + x; l != "" && !CommentChar(l[0]) && l[0] != '['
    ensures ParseLine(key + b1 + x + ("\n" + rest), section, u) == Bad
  {
    hide ParsePair;
    var q := x + ("\n" + rest);
    var s := key + (b1 + q);
    assert s == key + b1 + x + ("\n" + rest) && s[0] == (key + b1 + x)[0];
    LineEnds(x, rest);
    PairRefused(key, b1, q, section, u);
  }

  /** What a key may consist of: digits, letters and hyphens of the ASCII character set. */
  lemma KeyCharacters(c: char, section: string, u: Unit)
    requires c !in {'\0', '\n', '[', '#', ';'} && section != ""
    ensures ParseLine([c] + "=\n", section, u).Next?
       <==> c == '-' || 48 <= c as int <= 57 || 65 <= c as int <= 90 || 97 <= c as int <= 122
  {
    var s := [c] + "=\n";
    hide ParseLine, ParsePair;
    if KeyChar(c) {
      AssignmentExactly([c], "", "", "", "", section, u);
      assert [c] + ("" + ("=" + ("" + ("" + ("\n" + ""))))) == s;
      assert |TrimLast(Pushed("", ""))| <= 1022;
    } else {
      NoKey(s, section, u);
    }
  }

  lemma NoKey(s: string, section: string, u: Unit)
    requires s != "" && !KeyChar(s[0]) && s[0] !in {'\0', '\n', '[', '#', ';'}
    ensures ParseLine(s, section, u) == Bad
  {
    Cut("", s, KeyChar);
    assert "" + s == s;
    hide Split;
  }

  lemma PairRefused(key: string, b1: string, q: string, section: string, u: Unit)
    requires All(key, KeyChar) && All(b1, IsBlank) && q != "" && !IsBlank(q[0]) && (b1 == "" ==> !KeyChar(q[0]))
    requires key == "" || q[0] != '='
    ensures ParsePair(key + (b1 + q), section, u) == Bad
  {
    hide ScanValue, Update;
    var p := b1 + q;
    assert p[0] == if b1 == "" then q[0] else b1[0];
    Cut(key, p, KeyChar);
    Cut(b1, q, IsBlank);
    hide Split;
  }

  /** A last line without a newline is refused. */
  lemma UnfinishedLine(l: string, section: string, u: Unit)
    requires l != "" && All(l, ValueChar) && forall i :: 0 <= i < |l| ==> l[i] != '\\'
    ensures ParseFrom(l, section, u) == None
  {
    if CommentChar(l[0]) {
      SplitAll(l, InLine);
    } else if l[0] == '[' {
      UnfinishedHeader(l[1..]);
    } else {
      UnfinishedPair(l, section, u);
    }
  }

  lemma SplitAll(s: string, f: char -> bool)
    requires All(s, f)
    ensures Split(s, f) == (s, "")
  {
    Cut(s, "", f);
    assert s + "" == s;
  }

  lemma UnfinishedHeader(t: string)
    requires All(t, ValueChar)
    ensures var (name, q) := Split(t, NameChar);
      AtEof(q) || name == [] || q[0] != ']' || AtEof(q[1..]) || q[1] != '\n'
  {
    SplitFacts(t, NameChar);
    var (name, q) := Split(t, NameChar);
    assert forall i :: 0 <= i < |q| ==> q[i] == t[|name| + i];
  }

  /** Readable characters without a backslash. */
  ghost predicate Plain(s: string) {
    forall i :: 0 <= i < |s| ==> ValueChar(s[i]) && s[i] != '\\'
  }

  lemma RestIsPlain(s: string, f: char -> bool)
    requires Plain(s)
    ensures Plain(Split(s, f).1)
  {
    var n := Lead(s, f);
    assert forall i :: 0 <= i < |s[n..]| ==> s[n..][i] == s[n + i];
  }

  lemma UnfinishedPair(l: string, section: string, u: Unit)
    requires l != "" && Plain(l)
    ensures ParsePair(l, section, u) == Bad
  {
    hide Split, ScanValue, Update;
    var p := Split(l, KeyChar).1;
    RestIsPlain(l, KeyChar);
    var q := Split(p, IsBlank).1;
    RestIsPlain(p, IsBlank);
    if q != [] {
      assert Plain(q[1..]);
      RestIsPlain(q[1..], IsBlank);
      ScansToEnd(Split(q[1..], IsBlank).1, "");
    }
  }

  lemma {:induction false} ScansToEnd(w: string, acc: string)
    requires All(w, ValueChar) && forall i :: 0 <= i < |w| ==> w[i] != '\\'
    ensures ScanValue(w, acc).1 == ""
    decreases |w|
  {
    if w != [] {
      ScansToEnd(w[1..], Push(acc, if w[0] == '\t' then ' ' else w[0]));
    }
  }
}
