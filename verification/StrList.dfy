/**
 Delimited strings and lists of strings, as strlist.c converts between them, and
 the search path that command.c rebuilds with them.
 */
module StrList {
  import opened Basics

  ghost predicate Free(l: seq<string>, d: char) {
    forall i :: 0 <= i < |l| ==> d !in l[i]
  }

  // ----- splitting and joining -----

  /** The text between delimiters; n delimiters make n + 1 pieces. */
  function Pieces(s: string, d: char): (r: seq<string>)
    ensures r != []
  {
    if s == [] then [""]
    else
      var ps, c := Pieces(s[..|s| - 1], d), s[|s| - 1];
      if c == d then ps + [""] else ps[..|ps| - 1] + [ps[|ps| - 1] + [c]]
  }

  /** Drops empty pieces unless `blank`. */
  function Keep(ps: seq<string>, blank: bool): (r: seq<string>) {
    if ps == [] then []
    else
      var x := ps[|ps| - 1];
      Keep(ps[..|ps| - 1], blank) + (if blank || x != "" then [x] else [])
  }

  /** Keeps the first of equal elements. */
  function Dedup(l: seq<string>): (r: seq<string>) {
    if l == [] then []
    else
      var r, x := Dedup(l[..|l| - 1]), l[|l| - 1];
      if x in r then r else r + [x]
  }

  function Join(l: seq<string>, d: char): (s: string) {
    if l == [] then ""
    else if |l| == 1 then l[0]
    else Join(l[..|l| - 1], d) + [d] + l[|l| - 1]
  }

  // ----- the code's deduplication while splitting -----

  /** List so far, and the text still pending in front of the next piece. */
  datatype Walk = Walk(out: seq<string>, pending: string)

  /**
   strlist_from_delim with `dedup` over the pieces: skipping a duplicate does not move
   the start of the token, so the duplicate stays in front of the next piece.
   */
  function DedupWalk(ps: seq<string>, d: char, blank: bool): (w: Walk) {
    if ps == [] then Walk([], "")
    else
      var w := DedupWalk(ps[..|ps| - 1], d, blank);
      var token := w.pending + ps[|ps| - 1];
      if !blank && token == "" then Walk(w.out, "")
      else if token in w.out then Walk(w.out, token + [d])
      else Walk(w.out + [token], "")
  }

  /** What strlist_from_delim returns. */
  function FromDelim(s: string, d: char, blank: bool, dedup: bool): (r: seq<string>) {
    if dedup then DedupWalk(Pieces(s, d), d, blank).out else Keep(Pieces(s, d), blank)
  }

  /** What strlist_to_delim returns. */
  function ToDelim(l: seq<string>, d: char, dedup: bool): (s: string) {
    Join(if dedup then Dedup(l) else l, d)
  }

  // ----- laws -----

  lemma {:induction false} PiecesFree(s: string, d: char)
    ensures Free(Pieces(s, d), d)
  {
    if s != [] {
      PiecesFree(s[..|s| - 1], d);
    }
  }

  lemma JoinSnoc(l: seq<string>, x: string, d: char)
    requires l != []
    ensures Join(l + [x], d) == Join(l, d) + [d] + x
  {
    assert (l + [x])[..|l|] == l;
  }

  lemma JoinExtend(l: seq<string>, x: string, c: char, d: char)
    ensures Join(l + [x + [c]], d) == Join(l + [x], d) + [c]
  {
    if l != [] {
      JoinSnoc(l, x, d);
      JoinSnoc(l, x + [c], d);
    }
  }

  /** Joining the blank-keeping split gives back every string. */
  lemma {:induction false} JoinOfPieces(s: string, d: char)
    ensures Join(Pieces(s, d), d) == s
  {
    if s != [] {
      var front, c := s[..|s| - 1], s[|s| - 1];
      JoinOfPieces(front, d);
      var ps := Pieces(front, d);
      var init, last := ps[..|ps| - 1], ps[|ps| - 1];
      assert ps == init + [last] && s == front + [c];
      if c == d {
        JoinSnoc(ps, "", d);
        assert front + [d] + "" == s;
      } else {
        JoinExtend(init, last, c, d);
      }
    }
  }

  /** Text without delimiters only lengthens the last piece. */
  lemma {:induction false} PiecesExtend(s: string, t: string, d: char)
    requires d !in t
    ensures var ps := Pieces(s, d);
      Pieces(s + t, d) == ps[..|ps| - 1] + [ps[|ps| - 1] + t]
  {
    var ps := Pieces(s, d);
    if t == [] {
      assert s + t == s && ps[|ps| - 1] + t == ps[|ps| - 1];
    } else {
      var front, c := t[..|t| - 1], t[|t| - 1];
      PiecesExtend(s, front, d);
      assert (s + t)[..|s + t| - 1] == s + front;
      var qs := Pieces(s + front, d);
      assert qs[..|qs| - 1] == ps[..|ps| - 1];
      assert ps[|ps| - 1] + front + [c] == ps[|ps| - 1] + t;
    }
  }

  /** Splitting the join gives back every nonempty list of delimiter-free strings. */
  lemma {:induction false} PiecesOfJoin(l: seq<string>, d: char)
    requires l != [] && Free(l, d)
    ensures Pieces(Join(l, d), d) == l
  {
    var init, x := l[..|l| - 1], l[|l| - 1];
    assert l == init + [x];
    if |l| == 1 {
      PiecesExtend("", x, d);
      assert "" + x == x && Pieces("", d)[..0] + [Pieces("", d)[0] + x] == l;
    } else {
      PiecesOfJoin(init, d);
      var s := Join(init, d) + [d];
      assert s[..|s| - 1] == Join(init, d);
      assert Pieces(s, d) == init + [""];
      PiecesExtend(s, x, d);
      assert (init + [""])[..|init|] + ["" + x] == l;
    }
  }

  lemma {:induction false} KeepAll(ps: seq<string>)
    ensures Keep(ps, true) == ps
  {
    if ps != [] {
      KeepAll(ps[..|ps| - 1]);
    }
  }

  /** Both round trips, for the operations themselves. */
  lemma DelimRoundTrips(s: string, l: seq<string>, d: char)
    ensures ToDelim(FromDelim(s, d, true, false), d, false) == s
    ensures l != [] && Free(l, d) ==> FromDelim(ToDelim(l, d, false), d, true, false) == l
  {
    KeepAll(Pieces(s, d));
    JoinOfPieces(s, d);
    if l != [] && Free(l, d) {
      PiecesOfJoin(l, d);
      KeepAll(l);
    }
  }

  // ----- deduplication -----

  lemma {:induction false} DedupFacts(l: seq<string>)
    ensures NoDup(Dedup(l))
    ensures forall x :: x in Dedup(l) <==> x in l
    ensures l != [] ==> Dedup(l) != [] && Dedup(l)[0] == l[0]
  {
    if l != [] {
      var init, x := l[..|l| - 1], l[|l| - 1];
      DedupFacts(init);
      assert l == init + [x];
    }
  }

  lemma {:induction false} DedupOfDistinct(l: seq<string>)
    requires NoDup(l)
    ensures Dedup(l) == l
  {
    if l != [] {
      var init, x := l[..|l| - 1], l[|l| - 1];
      DedupOfDistinct(init);
      assert l == init + [x] && x !in init;
    }
  }

  /** Deduplication keeps the order of first occurrences. */
  lemma {:induction false} DedupOrder(l: seq<string>) returns (at: seq<nat>)
    ensures |at| == |Dedup(l)|
    ensures forall i :: 0 <= i < |at| ==> at[i] < |l| && l[at[i]] == Dedup(l)[i] && l[at[i]] !in l[..at[i]]
    ensures forall i, j :: 0 <= i < j < |at| ==> at[i] < at[j]
  {
    if l == [] {
      at := [];
    } else {
      var init, x := l[..|l| - 1], l[|l| - 1];
      at := DedupOrder(init);
      assert forall k :: 0 <= k < |init| ==> init[..k] == l[..k];
      DedupFacts(init);
      if x !in Dedup(init) {
        at := at + [|init|];
        assert l[..|init|] == init;
      }
    }
  }

  lemma {:induction false} KeepFacts(ps: seq<string>, blank: bool)
    ensures forall x :: x in Keep(ps, blank) <==> x in ps && (blank || x != "")
  {
    if ps != [] {
      var init, x := ps[..|ps| - 1], ps[|ps| - 1];
      KeepFacts(init, blank);
      assert ps == init + [x];
    }
  }

  /** As long as no kept piece repeats, the code's walk keeps them all and leaves nothing pending. */
  lemma {:induction false} WalkOfDistinct(ps: seq<string>, d: char, blank: bool)
    requires NoDup(Keep(ps, blank))
    ensures DedupWalk(ps, d, blank) == Walk(Keep(ps, blank), "")
  {
    if ps != [] {
      var init, x := ps[..|ps| - 1], ps[|ps| - 1];
      var k := Keep(init, blank);
      assert Keep(ps, blank)[..|k|] == k;
      assert NoDup(k);
      WalkOfDistinct(init, d, blank);
      assert "" + x == x;
      if blank || x != "" {
        assert Keep(ps, blank) == k + [x] && x == Keep(ps, blank)[|k|];
        assert x !in k;
      }
    }
  }

  /** Once a kept piece has repeated, a piece later the list holds text with a delimiter in it. */
  lemma {:induction false} WalkAfterRepeat(ps: seq<string>, d: char, blank: bool)
    requires Free(ps, d) && !NoDup(Keep(ps, blank))
    ensures var w := DedupWalk(ps, d, blank);
      (w.pending != "" && d in w.pending && Free(w.out, d)) || !Free(w.out, d)
  {
    var init, x := ps[..|ps| - 1], ps[|ps| - 1];
    var w := DedupWalk(init, d, blank);
    var token := w.pending + x;
    if NoDup(Keep(init, blank)) {
      WalkOfDistinct(init, d, blank);
      KeepFree(init, d, blank);
      assert "" + x == x;
      RepeatIsLast(Keep(init, blank), x, Keep(ps, blank));
      assert (token + [d])[|token|] == d;
    } else {
      WalkAfterRepeat(init, d, blank);
      if Free(w.out, d) {
        assert d in token;
        assert token !in w.out;
        assert (w.out + [token])[|w.out|] == token;
      } else {
        var i :| 0 <= i < |w.out| && d in w.out[i];
        assert DedupWalk(ps, d, blank).out[i] == w.out[i];
      }
    }
  }

  lemma RepeatIsLast(k: seq<string>, x: string, l: seq<string>)
    requires NoDup(k) && !NoDup(l) && (l == k + [x] || l == k + [])
    ensures l == k + [x] && x in k
  {
    assert k + [] == k;
  }

  lemma KeepFree(ps: seq<string>, d: char, blank: bool)
    requires Free(ps, d)
    ensures Free(Keep(ps, blank), d)
  {
    KeepFacts(ps, blank);
    forall i | 0 <= i < |Keep(ps, blank)| ensures d !in Keep(ps, blank)[i] {
      var x := Keep(ps, blank)[i];
      assert x in Keep(ps, blank);
    }
  }

  /**
   Splitting with `dedup` gives the deduplicated split exactly when no kept piece but
   the last repeats an earlier one.
   */
  lemma DedupWhileSplitting(s: string, d: char, blank: bool)
    ensures var ps := Pieces(s, d);
      FromDelim(s, d, blank, true) == Dedup(FromDelim(s, d, blank, false))
      <==> NoDup(Keep(ps[..|ps| - 1], blank))
  {
    var ps := Pieces(s, d);
    var init, x := ps[..|ps| - 1], ps[|ps| - 1];
    PiecesFree(s, d);
    var k := Keep(init, blank);
    if NoDup(k) {
      WalkOfDistinct(init, d, blank);
      DedupOfDistinct(k);
      assert "" + x == x;
      assert (k + [x])[..|k|] == k && k + [] == k;
    } else {
      WalkAfterRepeat(init, d, blank);
      WalkKeepsDelimiter(ps, d, blank);
      DedupKeepFree(ps, d, blank);
    }
  }

  lemma WalkKeepsDelimiter(ps: seq<string>, d: char, blank: bool)
    requires ps != [] && Free(ps, d)
    requires var w := DedupWalk(ps[..|ps| - 1], d, blank);
      (w.pending != "" && d in w.pending && Free(w.out, d)) || !Free(w.out, d)
    ensures !Free(DedupWalk(ps, d, blank).out, d)
  {
    var w := DedupWalk(ps[..|ps| - 1], d, blank);
    var token := w.pending + ps[|ps| - 1];
    if Free(w.out, d) {
      assert d in token && token !in w.out;
      assert (w.out + [token])[|w.out|] == token;
    } else {
      var i :| 0 <= i < |w.out| && d in w.out[i];
      assert DedupWalk(ps, d, blank).out[i] == w.out[i];
    }
  }

  lemma DedupKeepFree(ps: seq<string>, d: char, blank: bool)
    requires Free(ps, d)
    ensures Free(Dedup(Keep(ps, blank)), d)
  {
    KeepFree(ps, d, blank);
    DedupFacts(Keep(ps, blank));
    forall i | 0 <= i < |Dedup(Keep(ps, blank))| ensures d !in Dedup(Keep(ps, blank))[i] {
      var x := Dedup(Keep(ps, blank))[i];
      assert x in Dedup(Keep(ps, blank));
    }
  }

  /** Deduplicating "a:a:b" leaves "a" and "a:b", for any a and b, where "a" and "b" were promised. */
  lemma DedupMergesTokens(a: string, b: string, d: char, blank: bool)
    requires a != "" && b != "" && a != b && d !in a && d !in b
    ensures FromDelim(Join([a, a, b], d), d, blank, true) == [a, a + [d] + b]
    ensures Dedup(FromDelim(Join([a, a, b], d), d, blank, false)) == [a, b]
  {
    PiecesOfJoin([a, a, b], d);
    WalkMergesTokens(a, b, d, blank);
    KeepThree(a, b, blank);
    DedupThree(a, b);
    hide Pieces, Join, DedupWalk, Keep, Dedup;
  }

  lemma WalkMergesTokens(a: string, b: string, d: char, blank: bool)
    requires a != "" && d !in a
    ensures DedupWalk([a, a, b], d, blank).out == [a, a + [d] + b]
  {
    assert "" + a == a && (a + [d] + b)[|a|] == d;
    assert [a, a, b][..2] == [a, a] && [a, a][..1] == [a] && [a][..0] == [];
    assert DedupWalk([a], d, blank) == Walk([a], "");
    assert DedupWalk([a, a], d, blank) == Walk([a], a + [d]);
  }

  lemma KeepThree(a: string, b: string, blank: bool)
    requires a != "" && b != ""
    ensures Keep([a, a, b], blank) == [a, a, b]
  {
    assert [a, a, b][..2] == [a, a] && [a, a][..1] == [a] && [a][..0] == [];
    assert Keep([a], blank) == [a];
    assert Keep([a, a], blank) == [a, a];
  }

  lemma DedupThree(a: string, b: string)
    requires a != b
    ensures Dedup([a, a, b]) == [a, b]
  {
    assert [a, a, b][..2] == [a, a] && [a, a][..1] == [a] && [a][..0] == [];
    assert Dedup([a]) == [a];
    assert Dedup([a, a]) == [a];
  }

  // ----- the search path -----

  /** The PATH that command.c gives to a service. */
  function RebuiltPath(path: string, selfDir: string): (s: string) {
    ToDelim([selfDir] + FromDelim(path, ':', false, false), ':', true)
  }

  /**
   The rebuilt path starts with our own directory, has no duplicates, and otherwise
   has the nonempty entries of the old path, in order of first occurrence.
   */
  lemma RebuiltPathEntries(path: string, selfDir: string) returns (at: seq<nat>)
    requires selfDir != "" && ':' !in selfDir
    ensures var old_ := Pieces(path, ':');
      var all := [selfDir] + Keep(old_, false);
      var new_ := Pieces(RebuiltPath(path, selfDir), ':');
      && new_[0] == selfDir
      && NoDup(new_)
      && (forall x :: x in new_ <==> x == selfDir || (x in old_ && x != ""))
      && |at| == |new_|
      && (forall i :: 0 <= i < |at| ==> at[i] < |all| && all[at[i]] == new_[i] && all[at[i]] !in all[..at[i]])
      && (forall i, j :: 0 <= i < j < |at| ==> at[i] < at[j])
  {
    var entries := Keep(Pieces(path, ':'), false);
    var all := [selfDir] + entries;
    PiecesFree(path, ':');
    KeepFree(Pieces(path, ':'), ':', false);
    KeepFacts(Pieces(path, ':'), false);
    DedupFacts(all);
    at := DedupOrder(all);
    forall i | 0 <= i < |Dedup(all)| ensures ':' !in Dedup(all)[i] {
      assert all[at[i]] == selfDir || all[at[i]] == entries[at[i] - 1];
    }
    PiecesOfJoin(Dedup(all), ':');
  }
}
