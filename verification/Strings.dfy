/** Scanning, matching and ordering of texts, shared by the modules that read or print them. */
module Strings {
  type CharTest = char -> bool

  predicate Every(p: CharTest, s: string) {
    forall i :: 0 <= i < |s| ==> p(s[i])
  }

  function Not(c: char): CharTest {
    d => d != c
  }

  // ---------------------------------------------------------------------------------------------
  // Maximal runs

  /** Where the characters that start at position i and pass p stop. */
  function RunEnd(p: CharTest, text: string, i: nat): (end: nat)
    requires i <= |text|
    ensures i <= end <= |text|
    decreases |text| - i
  {
    if i == |text| || !p(text[i]) then i else RunEnd(p, text, i + 1)
  }

  lemma {:induction false} RunEndIsMaximal(p: CharTest, text: string, i: nat)
    requires i <= |text|
    ensures var end := RunEnd(p, text, i);
            (forall n :: i <= n < end ==> p(text[n])) && (end < |text| ==> !p(text[end]))
    decreases |text| - i
  {
    if i < |text| && p(text[i]) {
      RunEndIsMaximal(p, text, i + 1);
    }
  }

  lemma {:induction false} RunEndIsUnique(p: CharTest, text: string, i: nat, end: nat)
    requires i <= end <= |text|
    requires forall n :: i <= n < end ==> p(text[n])
    requires end < |text| ==> !p(text[end])
    ensures RunEnd(p, text, i) == end
    decreases end - i
  {
    if i < end {
      RunEndIsUnique(p, text, i + 1, end);
    }
  }

  /** The longest prefix of s whose characters pass p, and what follows it. */
  function Span(p: CharTest, s: string): (r: (string, string))
    ensures |r.0| + |r.1| == |s|
  {
    if s == "" || !p(s[0]) then ("", s) else ([s[0]] + Span(p, s[1..]).0, Span(p, s[1..]).1)
  }

  lemma {:induction false} SpanOf(p: CharTest, piece: string, rest: string)
    requires Every(p, piece) && (rest != "" ==> !p(rest[0]))
    ensures Span(p, piece + rest) == (piece, rest)
  {
    if piece == "" {
      assert piece + rest == rest;
    } else {
      assert (piece + rest)[1..] == piece[1..] + rest;
      SpanOf(p, piece[1..], rest);
      assert piece == [piece[0]] + piece[1..];
    }
  }

  lemma {:induction false} SpanSplits(p: CharTest, s: string)
    ensures var (a, b) := Span(p, s); s == a + b && Every(p, a) && (b != "" ==> !p(b[0]))
  {
    if s != "" && p(s[0]) {
      SpanSplits(p, s[1..]);
      var (a, b) := Span(p, s[1..]);
      assert Span(p, s) == ([s[0]] + a, b);
      assert s == [s[0]] + s[1..] == [s[0]] + (a + b) == [s[0]] + a + b;
    }
  }

  // ---------------------------------------------------------------------------------------------
  // Python's str.strip()

  predicate PySpace(c: char) {
    || '\t' <= c <= '\r' || '\U{1C}' <= c <= ' ' || c == '\U{85}' || c == '\U{A0}' || c == '\U{1680}'
    || '\U{2000}' <= c <= '\U{200A}' || c == '\U{2028}' || c == '\U{2029}' || c == '\U{202F}'
    || c == '\U{205F}' || c == '\U{3000}'
  }

  function StripEnd(s: string): string {
    if s != "" && PySpace(s[|s| - 1]) then StripEnd(s[..|s| - 1]) else s
  }

  function Strip(s: string): string {
    StripEnd(Span(PySpace, s).1)
  }

  /** Stripping leaves a text alone if and only if neither end is white space. */
  lemma StripIsIdentityIff(s: string)
    ensures Strip(s) == s <==> s == "" || (!PySpace(s[0]) && !PySpace(s[|s| - 1]))
  {
    if s != "" && PySpace(s[0]) {
      StripEndIsShorter(Span(PySpace, s).1);
    } else if s != "" && PySpace(s[|s| - 1]) {
      StripEndIsShorter(s[..|s| - 1]);
    }
  }

  lemma {:induction false} StripEndIsShorter(s: string)
    ensures |StripEnd(s)| <= |s|
  {
    if s != "" && PySpace(s[|s| - 1]) {
      StripEndIsShorter(s[..|s| - 1]);
    }
  }

  // ---------------------------------------------------------------------------------------------
  // Order by code point, and the keys of a dictionary in that order

  predicate Leq(a: string, b: string) {
    a == "" || (b != "" && (a[0] < b[0] || (a[0] == b[0] && Leq(a[1..], b[1..]))))
  }

  /** The first is a prefix of the second, or smaller where they first differ, at position n. */
  predicate DifferAt(a: string, b: string, n: nat) {
    n <= |a| && n <= |b| && a[..n] == b[..n] && (n == |a| || (n < |b| && a[n] < b[n]))
  }

  lemma SameHead(a: string, b: string)
    requires a != "" && b != ""
    ensures forall n: nat :: DifferAt(a, b, n) && n > 0 ==> a[0] == b[0]
  {
    forall n: nat | DifferAt(a, b, n) && n > 0
      ensures a[0] == b[0]
    {
      assert a[..n][0] == b[..n][0];
    }
  }

  lemma {:induction false} LeqIff(a: string, b: string)
    ensures Leq(a, b) <==> exists n: nat :: DifferAt(a, b, n)
  {
    if a == "" {
      assert DifferAt(a, b, 0);
    } else if b != "" && a[0] == b[0] {
      LeqIff(a[1..], b[1..]);
      if n: nat :| DifferAt(a[1..], b[1..], n) {
        assert a[..n + 1] == [a[0]] + a[1..][..n] && b[..n + 1] == [b[0]] + b[1..][..n];
        assert DifferAt(a, b, n + 1);
      }
      if n: nat :| DifferAt(a, b, n) {
        assert n > 0;
        assert a[1..][..n - 1] == a[..n][1..] && b[1..][..n - 1] == b[..n][1..];
        assert DifferAt(a[1..], b[1..], n - 1);
      }
    } else if b != "" {
      assert DifferAt(a, b, 0) <==> a[0] < b[0];
      SameHead(a, b);
    }
  }

  lemma {:induction false} LeqIsTotal(a: string, b: string)
    ensures Leq(a, b) || Leq(b, a)
    ensures Leq(a, b) && Leq(b, a) ==> a == b
  {
    if a != "" && b != "" && a[0] == b[0] {
      LeqIsTotal(a[1..], b[1..]);
      assert a == [a[0]] + a[1..] && b == [b[0]] + b[1..];
    }
  }

  lemma {:induction false} LeqIsTransitive(a: string, b: string, c: string)
    requires Leq(a, b) && Leq(b, c)
    ensures Leq(a, c)
  {
    if a != "" && b != "" && c != "" && a[0] == b[0] == c[0] {
      LeqIsTransitive(a[1..], b[1..], c[1..]);
    }
  }

  lemma {:induction false} LeastExists(keys: set<string>) returns (least: string)
    requires keys != {}
    ensures least in keys && forall k <- keys :: Leq(least, k)
  {
    var any :| any in keys;
    var rest := keys - {any};
    LeqIsTotal(any, any);
    if rest == {} {
      least := any;
      assert keys == rest + {any};
    } else {
      var m := LeastExists(rest);
      LeqIsTotal(any, m);
      least := if Leq(any, m) then any else m;
      forall k | k in keys
        ensures Leq(least, k)
      {
        assert k == any || k in rest;
        if k != any && least == any {
          LeqIsTransitive(any, m, k);
        }
      }
    }
  }

  predicate IsLeast(least: string, keys: set<string>) {
    least in keys && forall k <- keys :: Leq(least, k)
  }

  lemma LeastIsUnique(keys: set<string>)
    requires keys != {}
    ensures exists k :: IsLeast(k, keys)
    ensures forall k, m :: IsLeast(k, keys) && IsLeast(m, keys) ==> k == m
  {
    var least := LeastExists(keys);
    assert IsLeast(least, keys);
    forall k, m | IsLeast(k, keys) && IsLeast(m, keys)
      ensures k == m
    {
      LeqIsTotal(k, m);
    }
  }

  /** The keys in ascending order, each once. */
  function SortedKeys(keys: set<string>): (sorted: seq<string>)
    ensures forall k :: k in sorted <==> k in keys
    decreases |keys|
  {
    if keys == {} then [] else
    LeastIsUnique(keys);
    var least :| IsLeast(least, keys);
    [least] + SortedKeys(keys - {least})
  }

  ghost predicate Ascending(sorted: seq<string>) {
    forall i, j :: 0 <= i < j < |sorted| ==> Leq(sorted[i], sorted[j]) && sorted[i] != sorted[j]
  }

  lemma {:induction false} SortedKeysAscend(keys: set<string>)
    ensures Ascending(SortedKeys(keys))
    decreases |keys|
  {
    if keys != {} {
      var sorted := SortedKeys(keys);
      LeastIsUnique(keys);
      SortedKeysAscend(keys - {sorted[0]});
      forall j | 0 < j < |sorted|
        ensures Leq(sorted[0], sorted[j]) && sorted[0] != sorted[j]
      {
        assert sorted[j] == SortedKeys(keys - {sorted[0]})[j - 1];
      }
    }
  }
}
