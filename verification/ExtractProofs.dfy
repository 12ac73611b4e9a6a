/** The parser's search for the embedded unit, on a text seen as a list of lines: what it finds, and how it fails. */
module ExtractProofs {
  import opened Basics
  import opened TextLines
  import opened UnitFile
  import opened InitScript

  // ----- searching a list of lines -----

  /** Where line `k` of a text starts. */
  function Pos(ls: seq<string>, k: nat): (n: nat)
    requires k <= |ls|
  {
    |Lines(ls[..k])|
  }

  /** The first line from `k` on that matches is line `i`. */
  ghost predicate FirstFrom(ls: seq<string>, k: nat, want: string, whole: bool, i: nat) {
    k <= i < |ls| && Matches(ls[i], want, whole) && forall j :: k <= j < i ==> !Matches(ls[j], want, whole)
  }

  /** No line from `k` on matches. */
  ghost predicate NoneFrom(ls: seq<string>, k: nat, want: string, whole: bool) {
    forall j :: k <= j < |ls| ==> !Matches(ls[j], want, whole)
  }

  lemma TextParts(before: seq<string>, line: string, rest: seq<string>)
    ensures Lines(before + ([line] + rest)) == Lines(before) + (line + ("\n" + Lines(rest)))
    ensures |Lines(before + [line])| == |Lines(before)| + |line| + 1
  {
    assert ([line] + rest)[0] == line && ([line] + rest)[1..] == rest && [line][1..] == [];
    LinesAppend(before, [line] + rest);
    LinesAppend(before, [line]);
  }

  lemma StandsIn(a: string, line: string, b: string)
    ensures At(a + (line + ("\n" + b)), |a|, line) && At(a + (line + ("\n" + b)), |a| + |line|, "\n")
  {
    var txt := a + (line + ("\n" + b));
    assert txt[|a|..|a| + |line|] == line;
    assert txt[|a| + |line|..|a| + |line| + 1] == "\n";
  }

  lemma LineStands(ls: seq<string>, k: nat)
    requires k < |ls|
    ensures At(Lines(ls), Pos(ls, k), ls[k]) && At(Lines(ls), Pos(ls, k) + |ls[k]|, "\n")
    ensures Pos(ls, k + 1) == Pos(ls, k) + |ls[k]| + 1 <= |Lines(ls)|
  {
    hide Lines, At;
    var before, line, rest := ls[..k], ls[k], ls[k + 1..];
    assert ls == before + ([line] + rest) && ls[..k + 1] == before + [line];
    TextParts(before, line, rest);
    StandsIn(Lines(before), line, Lines(rest));
  }

  lemma FirstStep(ls: seq<string>, k: nat, want: string, whole: bool, i: nat)
    requires AreLines(ls) && FirstFrom(ls, k, want, whole, i)
    ensures k <= i < |ls| && IsLine(ls[k])
    ensures if k == i then Matches(ls[k], want, whole)
            else !Matches(ls[k], want, whole) && FirstFrom(ls, k + 1, want, whole, i)
  {
    hide Matches, IsLine;
  }

  lemma {:induction false} FindsFirst(ls: seq<string>, k: nat, want: string, whole: bool, i: nat)
    requires AreLines(ls) && FirstFrom(ls, k, want, whole, i)
    ensures i < |ls|
    ensures FindLine(Lines(ls), Pos(ls, k), want, whole) == Some(Span(Pos(ls, i), Pos(ls, i) + |ls[i]|))
    decreases i - k
  {
    hide FindLine, Lines, Matches, IsLine, At, Pos, AreLines, FirstFrom;
    FirstStep(ls, k, want, whole, i);
    LineStands(ls, k);
    if k == i {
      HitLine(Lines(ls), Pos(ls, k), ls[k], want, whole);
    } else {
      MissLine(Lines(ls), Pos(ls, k), ls[k], want, whole);
      FindsFirst(ls, k + 1, want, whole, i);
    }
  }

  lemma NoneStep(ls: seq<string>, k: nat, want: string, whole: bool)
    requires AreLines(ls) && k < |ls| && NoneFrom(ls, k, want, whole)
    ensures IsLine(ls[k]) && !Matches(ls[k], want, whole) && NoneFrom(ls, k + 1, want, whole)
  {
    hide Matches, IsLine;
  }

  lemma NothingBehind(ls: seq<string>, want: string, whole: bool)
    ensures FindLine(Lines(ls), Pos(ls, |ls|), want, whole) == None
  {
    assert ls[..|ls|] == ls;
  }

  lemma {:induction false} FindsNone(ls: seq<string>, k: nat, want: string, whole: bool)
    requires AreLines(ls) && k <= |ls| && NoneFrom(ls, k, want, whole)
    ensures FindLine(Lines(ls), Pos(ls, k), want, whole) == None
    decreases |ls| - k
  {
    hide FindLine, Lines, Matches, IsLine, At, Pos, AreLines, NoneFrom;
    if k == |ls| {
      NothingBehind(ls, want, whole);
    } else {
      NoneStep(ls, k, want, whole);
      LineStands(ls, k);
      MissLine(Lines(ls), Pos(ls, k), ls[k], want, whole);
      FindsNone(ls, k + 1, want, whole);
    }
  }

  /** Line `i` as the cursor sees it. */
  function Line(ls: seq<string>, i: nat): (s: Span)
    requires i < |ls|
  {
    Span(Pos(ls, i), Pos(ls, i) + |ls[i]|)
  }

  lemma LineFits(ls: seq<string>, i: nat)
    requires i < |ls|
    ensures var l := Line(ls, i);
      && l.end < |Lines(ls)| && Lines(ls)[l.beg..l.end] == ls[i] && Lines(ls)[l.end] == '\n'
      && l.end + 1 == Pos(ls, i + 1) <= |Lines(ls)|
  {
    LineStands(ls, i);
    var l := Line(ls, i);
    hide Lines, Pos;
    assert Lines(ls)[l.end..l.end + 1][0] == Lines(ls)[l.end];
  }

  lemma NextIs(ls: seq<string>, h: nat, want: string, whole: bool, i: nat)
    requires AreLines(ls) && h < |ls| && FirstFrom(ls, h + 1, want, whole, i)
    ensures i < |ls| && Line(ls, h).end <= |Lines(ls)|
    ensures FindNext(Lines(ls), Line(ls, h), want, whole) == Some(Line(ls, i))
  {
    hide FindLine, Lines, Matches, IsLine, At, Pos, AreLines, FirstFrom;
    LineFits(ls, h);
    FindsFirst(ls, h + 1, want, whole, i);
    FirstStep(ls, h + 1, want, whole, i);
    LineFits(ls, h + 1);
  }

  lemma NextIsNone(ls: seq<string>, h: nat, want: string, whole: bool)
    requires AreLines(ls) && h < |ls| && NoneFrom(ls, h + 1, want, whole)
    ensures Line(ls, h).end <= |Lines(ls)|
    ensures FindNext(Lines(ls), Line(ls, h), want, whole) == None
  {
    hide FindLine, Lines, Matches, IsLine, At, Pos, AreLines, NoneFrom;
    LineFits(ls, h);
    FindsNone(ls, h + 1, want, whole);
  }

  // ----- the five searches -----

  function Wanted(m: Markers): (r: seq<string>)
    ensures |r| == 5
  {
    [m.beginInfo, m.prov, m.endInfo, m.beginEmbed, m.endEmbed]
  }

  /** Where a search for marker `n` starts: behind the marker before it. */
  function From(at: seq<nat>, n: nat): (k: nat)
    requires n <= |at|
  {
    if n == 0 then 0 else at[n - 1] + 1
  }

  /** The lines at which the markers are found, one behind the other, as far as they are there at all. */
  ghost predicate Trail(ls: seq<string>, m: Markers, at: seq<nat>) {
    && |at| <= 5
    && (forall n :: 0 <= n < |at| ==> FirstFrom(ls, From(at, n), Wanted(m)[n], n != 1, at[n]))
    && (|at| < 5 ==> NoneFrom(ls, From(at, |at|), Wanted(m)[|at|], |at| != 1))
  }

  /**
   What becomes of a script.  The name is wrong, or there is no embedded unit: the service is
   missing.  Any other marker is not there: the script is invalid.  Otherwise the unit is what
   stands between the last two markers.
   */
  lemma ExtractExactly(m: Markers, ls: seq<string>, name: string, at: seq<nat>)
    requires AreLines(ls) && Trail(ls, m, at)
    ensures var r := Extract(m, Lines(ls), name);
      var named := |at| >= 2 && Provides(ls[at[1]], m.prov, name);
      && (r.Missing? <==> (|at| >= 2 && !named) || |at| == 3)
      && (r.Found? <==> |at| == 5 && named)
      && (r.Found? ==> Lines(ls)[r.beg..r.end] == Lines(ls[at[3] + 1..at[4]]))
  {
    hide Lines, FindLine, FindNext, Provides, AreLines, NoneFrom, FirstFrom, Matches;
    assert Pos(ls, 0) == 0 by {
      NothingBefore(ls);
    }
    hide Pos;
    if |at| == 0 {
      FindsNone(ls, 0, m.beginInfo, true);
    } else {
      assert FirstFrom(ls, From(at, 0), Wanted(m)[0], true, at[0]);
      FirstIsIn(ls, 0, m.beginInfo, true, at[0]);
      FindsFirst(ls, 0, m.beginInfo, true, at[0]);
      if |at| == 1 {
        NextIsNone(ls, at[0], m.prov, false);
      } else {
        assert FirstFrom(ls, From(at, 1), Wanted(m)[1], false, at[1]);
        FirstIsIn(ls, at[0] + 1, m.prov, false, at[1]);
        NextIs(ls, at[0], m.prov, false, at[1]);
        LineFits(ls, at[1]);
        hide ExtractAfter;
        if Provides(ls[at[1]], m.prov, name) {
          AfterExactly(m, ls, at);
        }
      }
    }
  }

  lemma NothingBefore(ls: seq<string>)
    ensures Pos(ls, 0) == 0
  {
    assert ls[..0] == [];
  }

  lemma FirstIsIn(ls: seq<string>, k: nat, want: string, whole: bool, i: nat)
    requires FirstFrom(ls, k, want, whole, i)
    ensures k <= i < |ls| && Matches(ls[i], want, whole) && (!whole ==> want <= ls[i])
  {
  }

  lemma AfterExactly(m: Markers, ls: seq<string>, at: seq<nat>)
    requires AreLines(ls) && Trail(ls, m, at) && |at| >= 2 && at[1] < |ls|
    ensures Line(ls, at[1]).end <= |Lines(ls)|
    ensures var r := ExtractAfter(m, Lines(ls), Line(ls, at[1]));
      && (r.Missing? <==> |at| == 3)
      && (r.Found? <==> |at| == 5)
      && (r.Found? ==> Lines(ls)[r.beg..r.end] == Lines(ls[at[3] + 1..at[4]]))
  {
    hide Lines, FindLine, FindNext, AreLines, NoneFrom, FirstFrom, Matches, Pos;
    LineFits(ls, at[1]);
    if |at| == 2 {
      NextIsNone(ls, at[1], m.endInfo, true);
    } else {
      assert FirstFrom(ls, From(at, 2), Wanted(m)[2], true, at[2]);
      FirstIsIn(ls, at[1] + 1, m.endInfo, true, at[2]);
      NextIs(ls, at[1], m.endInfo, true, at[2]);
      if |at| == 3 {
        NextIsNone(ls, at[2], m.beginEmbed, true);
      } else {
        assert FirstFrom(ls, From(at, 3), Wanted(m)[3], true, at[3]);
        FirstIsIn(ls, at[2] + 1, m.beginEmbed, true, at[3]);
        NextIs(ls, at[2], m.beginEmbed, true, at[3]);
        if |at| == 4 {
          NextIsNone(ls, at[3], m.endEmbed, true);
        } else {
          assert FirstFrom(ls, From(at, 4), Wanted(m)[4], true, at[4]);
          FirstIsIn(ls, at[3] + 1, m.endEmbed, true, at[4]);
          NextIs(ls, at[3], m.endEmbed, true, at[4]);
          LineFits(ls, at[3]);
          Between(ls, at[3] + 1, at[4]);
        }
      }
    }
  }

  lemma Between(ls: seq<string>, a: nat, b: nat)
    requires a <= b <= |ls|
    ensures Pos(ls, a) <= Pos(ls, b) <= |Lines(ls)| && Lines(ls)[Pos(ls, a)..Pos(ls, b)] == Lines(ls[a..b])
  {
    assert ls == ls[..b] + ls[b..] && ls[..b] == ls[..a] + ls[a..b];
    LinesAppend(ls[..b], ls[b..]);
    LinesAppend(ls[..a], ls[a..b]);
    hide Lines;
  }

  // ----- the name -----

  predicate NotBlank(c: char) {
    !IsBlank(c)
  }

  function FirstWord(s: string): (w: string) {
    Split(Split(s, IsBlank).1, NotBlank).0
  }

  /** The script is that of the service if its first facility is the name. */
  lemma ProvidesFirstWord(line: string, prefix: string, name: string)
    requires prefix <= line && All(name, NotBlank)
    ensures Provides(line, prefix, name) <==> FirstWord(line[|prefix|..]) == name
  {
    var facility := Split(line[|prefix|..], IsBlank).1;
    var (word, rest) := Split(facility, NotBlank);
    SplitFacts(facility, NotBlank);
    hide Split;
    if Provides(line, prefix, name) {
      var tail := facility[|name|..];
      assert facility == name + tail;
      Cut(name, tail, NotBlank);
    }
    if word == name {
      assert facility == word + rest;
      assert rest != [] ==> facility[|name|] == rest[0];
    }
  }
}
