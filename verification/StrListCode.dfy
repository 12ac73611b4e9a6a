/** strlist.c as it runs: a start and an end pointer over the string, and a growing byte array. */
module StrListCode {
  import opened Basics
  import opened StrList

  function Delimiter(delim: char): (d: char) {
    if delim == '\0' then ':' else delim
  }

  /** The pieces before the current one, and the current one. */
  function Before(s: string, d: char): (r: seq<string>) {
    Pieces(s, d)[..|Pieces(s, d)| - 1]
  }

  function Current(s: string, d: char): (r: string) {
    Pieces(s, d)[|Pieces(s, d)| - 1]
  }

  lemma NextCharacter(str: string, q: nat, d: char)
    requires q < |str|
    ensures str[q] == d ==> Before(str[..q + 1], d) == Pieces(str[..q], d) && Current(str[..q + 1], d) == ""
    ensures str[q] != d ==> Before(str[..q + 1], d) == Before(str[..q], d)
    ensures str[q] != d ==> Current(str[..q + 1], d) == Current(str[..q], d) + [str[q]]
  {
    assert str[..q + 1][..q] == str[..q];
  }

  /** What the list holds, and the token that has been started, after the characters before `q`. */
  ghost predicate Scanned(str: string, q: nat, p: nat, l: seq<string>, d: char, blank: bool, dedup: bool)
    requires p <= q <= |str|
  {
    var before, current := Before(str[..q], d), Current(str[..q], d);
    if dedup then
      var w := DedupWalk(before, d, blank);
      l == w.out && str[p..q] == w.pending + current
    else
      l == Keep(before, blank) && str[p..q] == current
  }

  /** The end of a token: the list gets it, unless it is skipped as blank or as a duplicate. */
  lemma EndOfToken(str: string, q: nat, p: nat, l: seq<string>, d: char, blank: bool, dedup: bool)
    requires p <= q <= |str| && Scanned(str, q, p, l, d, blank, dedup)
    ensures var ps, token := Pieces(str[..q], d), str[p..q];
      var skip := !blank && token == "";
      var next := if skip then Walk(l, "") else if token in l then Walk(l, token + [d]) else Walk(l + [token], "");
      if dedup then DedupWalk(ps, d, blank) == next else Keep(ps, blank) == if skip then l else l + [token]
  {
    hide Pieces;
    assert l + [] == l;
  }

  /** strlist_from_delim. */
  method StrListFromDelim(str: string, delim: char, blank: bool, dedup: bool) returns (l: seq<string>)
    ensures l == FromDelim(str, Delimiter(delim), blank, dedup)
  {
    hide Pieces, DedupWalk, Keep;
    var d := Delimiter(delim);
    l := [];
    var p: nat, q: nat := 0, 0;
    StartOfScan(str, d, blank, dedup);
    while true
      invariant 0 <= p <= q <= |str|
      invariant Scanned(str, q, p, l, d, blank, dedup)
      decreases |str| - q
    {
      EndOfToken(str, q, p, l, d, blank, dedup);
      ghost var start := p;
      if q == |str| || str[q] == d {
        if blank || q > p {
          var s := str[p..q];
          if dedup && s in l {
            // the start of the token stays where it is
          } else {
            l := l + [s];
            p := q + 1;
          }
        } else {
          p := q + 1;
        }
      }
      if q == |str| {
        assert str[..q] == str;
        return;
      }
      NextCharacter(str, q, d);
      assert str[start..q + 1] == str[start..q] + [str[q]];
      q := q + 1;
    }
  }

  lemma StartOfScan(str: string, d: char, blank: bool, dedup: bool)
    ensures Scanned(str, 0, 0, [], d, blank, dedup)
  {
    assert str[..0] == "" && str[0..0] == "";
  }

  /** The list with the delimiter after every element. */
  function Terminated(l: seq<string>, d: char): (s: string) {
    if l == [] then "" else Join(l, d) + [d]
  }

  lemma TerminatedSnoc(l: seq<string>, x: string, d: char)
    ensures Terminated(l + [x], d) == Terminated(l, d) + x + [d]
  {
    if l != [] {
      JoinSnoc(l, x, d);
    }
  }

  /** strlist_to_delim. */
  method StrListToDelim(l: seq<string>, delim: char, dedup: bool) returns (str: string)
    ensures str == ToDelim(l, Delimiter(delim), dedup)
  {
    var d := Delimiter(delim);
    var ba, seen := "", {};
    ghost var kept := [];
    for i := 0 to |l|
      invariant kept == if dedup then Dedup(l[..i]) else l[..i]
      invariant dedup ==> forall x :: x in seen <==> x in kept
      invariant ba == Terminated(kept, d)
    {
      assert l[..i + 1][..i] == l[..i];
      if dedup {
        if l[i] in seen {
          continue;
        }
        seen := seen + {l[i]};
      }
      TerminatedSnoc(kept, l[i], d);
      ba := ba + l[i] + [d];
      kept := kept + [l[i]];
    }
    assert l[..|l|] == l;
    if |ba| > 0 {
      ba := ba[..|ba| - 1];
    }
    str := ba;
  }
}
