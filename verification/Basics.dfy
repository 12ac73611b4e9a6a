/** Small things several components share: optional values, distinctness, and scanning of text. */
module Basics {

  datatype Option<T> = None | Some(value: T)

  predicate NoDup<T(==)>(s: seq<T>) {
    forall i, j :: 0 <= i < j < |s| ==> s[i] != s[j]
  }

  ghost predicate All(s: string, f: char -> bool) {
    forall i :: 0 <= i < |s| ==> f(s[i])
  }

  /** Neither a newline nor the NUL that ends a text. */
  predicate InLine(c: char) { c != '\0' && c != '\n' }

  /** The number of leading characters that satisfy `f`. */
  function Lead(s: string, f: char -> bool): (n: nat)
    ensures n <= |s|
  {
    if s == [] || !f(s[0]) then 0 else 1 + Lead(s[1..], f)
  }

  /** Cuts the text after the leading characters that satisfy `f`. */
  function Split(s: string, f: char -> bool): (r: (string, string))
    ensures |r.0| + |r.1| == |s|
  {
    (s[..Lead(s, f)], s[Lead(s, f)..])
  }

  lemma {:induction false} LeadOf(a: string, b: string, f: char -> bool)
    requires All(a, f) && (b == [] || !f(b[0]))
    ensures Lead(a + b, f) == |a|
  {
    if a == [] {
      assert a + b == b;
    } else {
      assert (a + b)[1..] == a[1..] + b;
      LeadOf(a[1..], b, f);
    }
  }

  /** Scanning cuts a concatenation where the class of the characters changes. */
  lemma Cut(a: string, b: string, f: char -> bool)
    requires All(a, f) && (b == [] || !f(b[0]))
    ensures Split(a + b, f) == (a, b)
  {
    LeadOf(a, b, f);
  }

  lemma {:induction false} SplitFacts(s: string, f: char -> bool)
    ensures var (a, b) := Split(s, f);
      s == a + b && All(a, f) && (b == [] || !f(b[0]))
  {
    if s != [] && f(s[0]) {
      SplitFacts(s[1..], f);
      assert Split(s, f).0 == [s[0]] + Split(s[1..], f).0;
    }
  }

  /** A scanning loop: moves on from `from` while `f` holds, but not past `end`. */
  method ScanWhile(str: string, from: nat, end: nat, f: char -> bool) returns (to: nat)
    requires from <= end <= |str|
    ensures from <= to <= end
    ensures Split(str[from..end], f) == (str[from..to], str[to..end])
  {
    to := from;
    while to < end && f(str[to])
      invariant from <= to <= end
      invariant Lead(str[from..end], f) == to - from + Lead(str[to..end], f)
    {
      assert str[to..end][1..] == str[to + 1..end];
      to := to + 1;
    }
    assert Lead(str[to..end], f) == 0;
    assert str[from..end][..to - from] == str[from..to];
    assert str[from..end][to - from..] == str[to..end];
  }
}
