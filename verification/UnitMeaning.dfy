/**
 What a unit file says, apart from how it is scanned: repeated assignments, blanks, comments, and which
 lines are refused.
 */
module UnitMeaning {
  import opened Basics
  import opened UnitFile
  import opened UnitFileProofs
  import opened UnitLocality
  import opened StrList

  // ----- repeated assignments -----

  /** One assignment per value. */
  function Assign(key: string, vs: seq<string>): (s: string) {
    if vs == [] then "" else key + ("=" + (vs[0] + ("\n" + Assign(key, vs[1..]))))
  }

  /** Where the last empty value stands, or the beginning. */
  function LastEmpty(vs: seq<string>): (i: nat)
    ensures vs != [] ==> i < |vs|
    ensures (i > 0 ==> i < |vs| && vs[i] == "") && forall j :: i < j < |vs| ==> vs[j] != ""
  {
    if vs == [] then 0 else if vs[|vs| - 1] == "" then |vs| - 1 else LastEmpty(vs[..|vs| - 1])
  }

  /** The values from the last empty one on, joined by single spaces. */
  function Effective(vs: seq<string>): (s: string)
    requires vs != []
  {
    Join(vs[LastEmpty(vs)..], ' ')
  }

  lemma LastEmptyIs(vs: seq<string>, i: nat)
    requires i < |vs| && (i > 0 ==> vs[i] == "") && forall j :: i < j < |vs| ==> vs[j] != ""
    ensures LastEmpty(vs) == i
  {
  }

  lemma {:induction false} JoinPair(a: string, b: string, tail: seq<string>)
    ensures Join([a, b] + tail, ' ') == Join([a + " " + b] + tail, ' ')
    decreases |tail|
  {
    if tail == [] {
      assert [a, b] + tail == [a] + [b] && [a + " " + b] + tail == [a + " " + b];
      JoinSnoc([a], b, ' ');
    } else {
      var init, x := tail[..|tail| - 1], tail[|tail| - 1];
      JoinPair(a, b, init);
      assert [a, b] + tail == ([a, b] + init) + [x] && [a + " " + b] + tail == ([a + " " + b] + init) + [x];
      JoinSnoc([a, b] + init, x, ' ');
      JoinSnoc([a + " " + b] + init, x, ' ');
    }
  }

  /** What is stored for a value when `base` holds the value that was there, if any. */
  function Stored(base: seq<string>, v: string): (s: string) {
    if v == "" || base == [] then v else base[0] + " " + v
  }

  /** Storing one value at a time comes to the same. */
  lemma EffectiveStep(base: seq<string>, v: string, tail: seq<string>)
    requires |base| <= 1
    ensures Effective([Stored(base, v)] + tail) == Effective(base + [v] + tail)
  {
    hide LastEmpty, Join;
    var x, all := [Stored(base, v)] + tail, base + [v] + tail;
    var i, n := LastEmpty(x), |base|;
    assert forall j :: n + 1 <= j < |all| ==> all[j] == x[j - n];
    if i > 0 {
      LastEmptyIs(all, i + n);
      assert x[i..] == all[i + n..];
    } else {
      if v == "" || base == [] {
        LastEmptyIs(all, n);
        assert x[0..] == x && all[n..] == x;
      } else {
        LastEmptyIs(all, 0);
        assert all == [base[0], v] + tail && x[0..] == x && all[0..] == all;
        JoinPair(base[0], v, tail);
      }
    }
  }

  function Before(u: Unit, name: string, key: string): (base: seq<string>) {
    if key in SectionOf(u, name) then [SectionOf(u, name)[key]] else []
  }

  /** The unit in which one entry has a value, and all else is as before. */
  function WithEntry(u: Unit, name: string, key: string, v: string): (r: Unit) {
    u[name := SectionOf(u, name)[key := v]]
  }

  lemma UpdateStores(u: Unit, name: string, key: string, v: string)
    ensures Update(u, name, key, v, v != "") == WithEntry(u, name, key, Stored(Before(u, name, key), v))
  {
  }

  lemma EntryTwice(u: Unit, name: string, key: string, v: string, w: string)
    ensures WithEntry(WithEntry(u, name, key, v), name, key, w) == WithEntry(u, name, key, w)
    ensures Before(WithEntry(u, name, key, v), name, key) == [v]
  {
    assert SectionOf(u, name)[key := v][key := w] == SectionOf(u, name)[key := w];
  }

  /**
   Assigning several values to one key, in one section, leaves the values from the last empty one on,
   joined by single spaces; a value that was there before counts as the first.
   */
  lemma {:induction false} AssignmentsJoin(u: Unit, name: string, key: string, vs: seq<string>, rest: string)
    requires LegalKey(key) && name != "" && vs != [] && forall i :: 0 <= i < |vs| ==> Canonical(vs[i])
    ensures ParseFrom(Assign(key, vs) + rest, name, u)
         == ParseFrom(rest, name, WithEntry(u, name, key, Effective(Before(u, name, key) + vs)))
    decreases |vs|
  {
    hide ParseLine, ParseFrom, Canonical, Update, Effective, WithEntry;
    var v, tail := vs[0], vs[1..];
    var more := Assign(key, tail) + rest;
    assert Assign(key, vs) + rest == key + ("=" + (v + ("\n" + more)));
    PairLine(key, v, more, name, u);
    UpdateStores(u, name, key, v);
    var base := Before(u, name, key);
    var x := Stored(base, v);
    var u' := WithEntry(u, name, key, x);
    ParseStep(Assign(key, vs) + rest, name, u, Next(name, u', more));
    assert vs == [v] + tail && base + vs == base + [v] + tail;
    EffectiveStep(base, v, tail);
    if tail == [] {
      assert Assign(key, tail) + rest == rest && [x] + tail == [x];
      OneEffective(x);
    } else {
      AssignmentsJoin(u', name, key, tail, rest);
      EntryTwice(u, name, key, x, Effective([x] + tail));
    }
  }

  lemma OneEffective(x: string)
    ensures Effective([x]) == x
  {
  }

  /** What an entry is, and that nothing else differs. */
  lemma EntryIsExact(u: Unit, name: string, key: string, v: string)
    ensures var r := WithEntry(u, name, key, v);
      && Get(r, name, key) == Some(v)
      && (forall n, k :: n != name || k != key ==> Get(r, n, k) == Get(u, n, k))
      && r.Keys == u.Keys + {name}
  {
  }

  /** In a file: whatever stands before the assignments, they set their own entry and leave all others as they were. */
  lemma AssignmentsInFile(pre: string, name: string, key: string, vs: seq<string>, u: Unit)
    requires LegalKey(key) && name != "" && vs != [] && forall i :: 0 <= i < |vs| ==> Canonical(vs[i])
    requires Arrives(pre, "", "", map[]) == Some((name, u))
    ensures Parse(pre) == Some(u)
    ensures var old_ := Get(u, name, key);
      var all := (if old_.Some? then [old_.value] else []) + vs;
      match Parse(pre + Assign(key, vs))
      case None => false
      case Some(r) =>
        && Get(r, name, key) == Some(Join(all[LastEmpty(all)..], ' '))
        && (forall n, k :: n != name || k != key ==> Get(r, n, k) == Get(u, n, k))
  {
    hide ParseLine, ParseFrom, Arrives, Canonical, Join;
    var lines := Assign(key, vs);
    GoesOn(pre, "", "", map[]);
    assert pre + "" == pre && lines + "" == lines;
    ArrivesAnyway(pre, "", lines, "", map[]);
    GoesOn(pre, lines, "", map[]);
    AssignmentsJoin(u, name, key, vs, "");
    var v := Effective(Before(u, name, key) + vs);
    NothingLeft(name, u);
    NothingLeft(name, WithEntry(u, name, key, v));
    EntryIsExact(u, name, key, v);
  }

  lemma NothingLeft(section: string, u: Unit)
    ensures ParseFrom("", section, u) == Some(u)
  {
  }

  /** Two dependencies given one by one are both kept. */
  lemma TwoWants()
    ensures match Parse("[Unit]\nWants=a\nWants=b\n")
      case None => false
      case Some(r) => Get(r, "Unit", "Wants") == Some("a b")
  {
    hide ParseLine, ParseFrom, Canonical, Effective;
    var vs := ["a", "b"];
    HeaderLine("Unit", Assign("Wants", vs), "", map[]);
    var text := "[" + ("Unit" + ("]\n" + Assign("Wants", vs)));
    ParseStep(text, "", map[], Next("Unit", map[], Assign("Wants", vs)));
    WantsAreCanonical();
    AssignmentsJoin(map[], "Unit", "Wants", vs, "");
    assert Assign("Wants", vs) + "" == Assign("Wants", vs);
    assert Before(map[], "Unit", "Wants") + vs == vs;
    var v := Effective(vs);
    NothingLeft("Unit", WithEntry(map[], "Unit", "Wants", v));
    TwoEffective();
    WantsText();
  }

  lemma WantsText()
    ensures "[" + ("Unit" + ("]\n" + Assign("Wants", ["a", "b"])))
         == "[Unit]\nWants=a\nWants=b\n"
  {
    AssignTwo("Wants", "a", "b");
  }

  lemma AssignTwo(key: string, a: string, b: string)
    ensures Assign(key, [a, b]) == key + "=" + a + "\n" + key + "=" + b + "\n"
  {
    assert [a, b][1..] == [b] && [b][1..] == [];
    assert Assign(key, [b]) == key + ("=" + (b + ("\n" + "")));
    assert Assign(key, [a, b]) == key + ("=" + (a + ("\n" + Assign(key, [b]))));
  }

  lemma WantsAreCanonical()
    ensures LegalKey("Wants") && Canonical("a") && Canonical("b")
  {
  }

  lemma TwoEffective()
    ensures Effective(["a", "b"]) == "a b"
  {
    var vs := ["a", "b"];
    LastEmptyIs(vs, 0);
    assert vs[0..] == ["a"] + ["b"];
    JoinSnoc(["a"], "b", ' ');
  }

  // ----- comments and blank lines -----

  lemma CommentIsSkipped(mark: char, text: string, rest: string, section: string, u: Unit)
    requires (mark == '#' || mark == ';') && All(text, InLine)
    ensures ParseFrom([mark] + text + "\n" + rest, section, u) == ParseFrom(rest, section, u)
  {
    var line, end := [mark] + text, "\n" + rest;
    var s := line + end;
    assert s == [mark] + text + "\n" + rest;
    assert All(line, InLine);
    Cut(line, end, InLine);
    hide Split, ParseFrom;
    assert s[0] == mark && end[1..] == rest;
    ParseStep(s, section, u, Next(section, u, rest));
  }

  /** A comment line, with either mark, and an empty line make no difference wherever they stand. */
  lemma CommentsAnywhere(pre: string, mark: char, text: string, rest: string)
    requires (mark == '#' || mark == ';') && All(text, InLine) && Arrives(pre, rest, "", map[]).Some?
    ensures Parse(pre + ([mark] + text + "\n" + rest)) == Parse(pre + rest)
    ensures Parse(pre + ("\n" + rest)) == Parse(pre + rest)
  {
    hide ParseLine, ParseFrom, Arrives;
    var (section, u) := Arrives(pre, rest, "", map[]).value;
    var line, blank := [mark] + text + "\n" + rest, "\n" + rest;
    GoesOn(pre, rest, "", map[]);
    ArrivesAnyway(pre, rest, line, "", map[]);
    GoesOn(pre, line, "", map[]);
    CommentIsSkipped(mark, text, rest, section, u);
    ArrivesAnyway(pre, rest, blank, "", map[]);
    GoesOn(pre, blank, "", map[]);
    EmptyIsSkipped(rest, section, u);
  }

  lemma EmptyIsSkipped(rest: string, section: string, u: Unit)
    ensures ParseFrom("\n" + rest, section, u) == ParseFrom(rest, section, u)
  {
    hide ParseFrom;
    var s := "\n" + rest;
    assert s[0] == '\n' && s[1..] == rest;
    ParseStep(s, section, u, Next(section, u, rest));
  }
}
