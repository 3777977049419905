/**
 The snapshot id of a tree (src/acp/workspace/service.py `_snapshot_id`): SHA-256 over the stream of path, NUL
 and content digest of every file in path order. The stream determines the file list, so equal ids mean equal
 trees unless SHA-256 itself collides. `sha` stands for SHA-256.
 */
module Snapshot {
  import opened Strings
  import opened Patches

  type Byte = x: int | 0 <= x < 256
  type Bytes = seq<Byte>

  // ---------------------------------------------------------------------------------------------
  // UTF-8

  function Utf8Char(c: char): Bytes {
    var n := c as int;
    if n < 0x80 then [n]
    else if n < 0x800 then [0xC0 + n / 64, 0x80 + n % 64]
    else if n < 0x1_0000 then [0xE0 + n / 4096, 0x80 + n / 64 % 64, 0x80 + n % 64]
    else [0xF0 + n / 262144, 0x80 + n / 4096 % 64, 0x80 + n / 64 % 64, 0x80 + n % 64]
  }

  function Utf8(s: string): Bytes {
    if s == "" then [] else Utf8Char(s[0]) + Utf8(s[1..])
  }

  /** The code point that the bytes of one character spell. */
  function CodePoint(b: Bytes): int {
    if |b| == 1 then b[0]
    else if |b| == 2 then (b[0] as int - 0xC0) * 64 + (b[1] as int - 0x80)
    else if |b| == 3 then (b[0] as int - 0xE0) * 4096 + (b[1] as int - 0x80) * 64 + (b[2] as int - 0x80)
    else if |b| == 4 then
      (b[0] as int - 0xF0) * 262144 + (b[1] as int - 0x80) * 4096 + (b[2] as int - 0x80) * 64 + (b[3] as int - 0x80)
    else 0
  }

  lemma Digits(n: nat)
    ensures n == n / 64 * 64 + n % 64
    ensures n / 64 == n / 4096 * 64 + n / 64 % 64
    ensures n / 4096 == n / 262144 * 64 + n / 4096 % 64
  {
  }

  lemma CodePointRoundTrip(c: char)
    ensures CodePoint(Utf8Char(c)) == c as int
  {
    Digits(c as int);
  }

  /** The lead byte tells the length and the bytes tell the character. */
  lemma Utf8CharIsPrefixFree(c: char, d: char, x: Bytes, y: Bytes)
    requires Utf8Char(c) + x == Utf8Char(d) + y
    ensures c == d && x == y
  {
    var a, b := Utf8Char(c), Utf8Char(d);
    assert a[0] == (a + x)[0] == (b + y)[0] == b[0];
    assert |a| == |b|;
    assert a == (a + x)[..|a|] == (b + y)[..|b|] == b;
    assert x == (a + x)[|a|..] && y == (b + y)[|b|..];
    CodePointRoundTrip(c);
    CodePointRoundTrip(d);
  }

  lemma Utf8IsEmptyIff(s: string)
    ensures Utf8(s) == [] <==> s == ""
  {
    if s != "" {
      assert |Utf8Char(s[0])| > 0;
    }
  }

  lemma {:induction false} Utf8IsInjective(s: string, t: string)
    requires Utf8(s) == Utf8(t)
    ensures s == t
  {
    Utf8IsEmptyIff(s);
    Utf8IsEmptyIff(t);
    if s != "" {
      Utf8CharIsPrefixFree(s[0], t[0], Utf8(s[1..]), Utf8(t[1..]));
      Utf8IsInjective(s[1..], t[1..]);
      assert s == [s[0]] + s[1..] && t == [t[0]] + t[1..];
    }
  }

  predicate NoNul(s: string) {
    forall i :: 0 <= i < |s| ==> s[i] != '\0'
  }

  predicate NoZero(b: Bytes) {
    forall i :: 0 <= i < |b| ==> b[i] != 0
  }

  lemma {:induction false} Utf8HasNoZero(s: string)
    requires NoNul(s)
    ensures NoZero(Utf8(s))
  {
    if s != "" {
      Utf8HasNoZero(s[1..]);
      assert NoZero(Utf8Char(s[0]));
    }
  }

  // ---------------------------------------------------------------------------------------------
  // The stream

  datatype Entry = Entry(path: Path, digest: Bytes)

  predicate EntryOk(e: Entry) {
    NoNul(e.path) && |e.digest| == 32
  }

  function Piece(e: Entry): Bytes {
    Utf8(e.path) + [0] + e.digest
  }

  function Stream(entries: seq<Entry>): Bytes {
    if entries == [] then [] else Piece(entries[0]) + Stream(entries[1..])
  }

  lemma {:induction false} FirstZeroSplits(p: Bytes, q: Bytes, x: Bytes, y: Bytes)
    requires NoZero(p) && NoZero(q) && p + [0] + x == q + [0] + y
    ensures p == q && x == y
  {
    var a, b := p + [0] + x, q + [0] + y;
    assert a[|p|] == 0 && b[|q|] == 0;
    assert forall i :: 0 <= i < |p| ==> a[i] == p[i];
    assert forall i :: 0 <= i < |q| ==> b[i] == q[i];
    assert |p| == |q|;
    assert p == a[..|p|] && q == b[..|q|] && x == a[|p| + 1..] && y == b[|q| + 1..];
  }

  /** The first entry of a stream is determined by the stream. */
  lemma PieceSplits(e: Entry, f: Entry, x: Bytes, y: Bytes)
    requires EntryOk(e) && EntryOk(f) && Piece(e) + x == Piece(f) + y
    ensures e == f && x == y
  {
    Utf8HasNoZero(e.path);
    Utf8HasNoZero(f.path);
    assert Piece(e) + x == Utf8(e.path) + [0] + (e.digest + x);
    assert Piece(f) + y == Utf8(f.path) + [0] + (f.digest + y);
    FirstZeroSplits(Utf8(e.path), Utf8(f.path), e.digest + x, f.digest + y);
    Utf8IsInjective(e.path, f.path);
    assert e.digest == (e.digest + x)[..32] && f.digest == (f.digest + y)[..32];
    assert x == (e.digest + x)[32..] && y == (f.digest + y)[32..];
  }

  lemma StreamIsEmptyIff(entries: seq<Entry>)
    ensures Stream(entries) == [] <==> entries == []
  {
    if entries != [] {
      assert |Piece(entries[0])| > 0;
    }
  }

  /** The stream is uniquely decodable: it determines the list of files and digests. */
  lemma {:induction false} StreamIsUniquelyDecodable(a: seq<Entry>, b: seq<Entry>)
    requires forall i :: 0 <= i < |a| ==> EntryOk(a[i])
    requires forall i :: 0 <= i < |b| ==> EntryOk(b[i])
    requires Stream(a) == Stream(b)
    ensures a == b
    decreases |a|
  {
    StreamIsEmptyIff(a);
    StreamIsEmptyIff(b);
    if a != [] {
      PieceSplits(a[0], b[0], Stream(a[1..]), Stream(b[1..]));
      StreamIsUniquelyDecodable(a[1..], b[1..]);
      assert a == [a[0]] + a[1..] && b == [b[0]] + b[1..];
    }
  }

  // ---------------------------------------------------------------------------------------------
  // The id

  /** Path objects compare component by component, that is, with the separator below every other character. */
  function PathKey(p: Path): string {
    seq(|p|, i requires 0 <= i < |p| => if p[i] == '/' then '\0' else p[i])
  }

  function KeyPath(k: string): Path {
    seq(|k|, i requires 0 <= i < |k| => if k[i] == '\0' then '/' else k[i])
  }

  lemma KeyPathInverts(p: Path)
    requires NoNul(p)
    ensures KeyPath(PathKey(p)) == p
  {
  }

  function SortedPaths(tree: Tree): seq<Path> {
    var keys := SortedKeys(set p <- tree.Keys :: PathKey(p));
    seq(|keys|, i requires 0 <= i < |keys| => KeyPath(keys[i]))
  }

  /** A file system stores no path with a NUL in it. */
  ghost predicate Storable(tree: Tree) {
    forall p <- tree.Keys :: NoNul(p)
  }

  lemma SortedPathsAreThePaths(tree: Tree, p: Path)
    requires Storable(tree)
    ensures p in SortedPaths(tree) <==> p in tree
  {
    var keys := SortedKeys(set p <- tree.Keys :: PathKey(p));
    var paths := SortedPaths(tree);
    if p in tree {
      KeyPathInverts(p);
      assert PathKey(p) in keys;
      var i :| 0 <= i < |keys| && keys[i] == PathKey(p);
      assert paths[i] == p;
    }
    if p in paths {
      var i :| 0 <= i < |paths| && paths[i] == p;
      assert keys[i] in keys;
      var q :| q in tree && PathKey(q) == keys[i];
      KeyPathInverts(q);
    }
  }

  /** Up to their n-th character the two paths are one; there the first ends, or ends a component that the second goes
      on with, or has the smaller character. */
  predicate ComparesBelowAt(a: Path, b: Path, n: nat) {
    && n <= |a| && n <= |b| && a[..n] == b[..n]
    && (n < |a| ==> n < |b| && b[n] != '/' && (a[n] == '/' || a[n] < b[n]))
  }

  /** Every file is hashed once, in the order of the components of the paths. */
  lemma PathsAreInComponentOrder(tree: Tree, i: nat, j: nat)
    requires Storable(tree) && i < j < |SortedPaths(tree)|
    ensures var paths := SortedPaths(tree);
            paths[i] != paths[j] && exists n: nat :: ComparesBelowAt(paths[i], paths[j], n)
  {
    var keys := SortedKeys(set p <- tree.Keys :: PathKey(p));
    var paths := SortedPaths(tree);
    SortedKeysAscend(set p <- tree.Keys :: PathKey(p));
    var a := KeyOf(tree, i);
    var b := KeyOf(tree, j);
    LeqIff(keys[i], keys[j]);
    var n: nat :| DifferAt(keys[i], keys[j], n);
    forall k | 0 <= k < n
      ensures a[k] == b[k]
    {
      assert keys[i][..n][k] == keys[j][..n][k];
    }
    assert ComparesBelowAt(a, b, n);
  }

  lemma KeyOf(tree: Tree, i: nat) returns (p: Path)
    requires Storable(tree) && i < |SortedPaths(tree)|
    ensures var keys := SortedKeys(set p <- tree.Keys :: PathKey(p));
            |keys| == |SortedPaths(tree)| && keys[i] == PathKey(p) && p == SortedPaths(tree)[i] && NoNul(p)
  {
    var keys := SortedKeys(set p <- tree.Keys :: PathKey(p));
    assert keys[i] in keys;
    p :| p in tree && PathKey(p) == keys[i];
    KeyPathInverts(p);
  }

  function EntriesOf(sha: Bytes -> Bytes, tree: Tree, paths: seq<Path>): seq<Entry> {
    seq(|paths|, i requires 0 <= i < |paths| =>
      Entry(paths[i], sha(Utf8(if paths[i] in tree then tree[paths[i]] else ""))))
  }

  function StreamOf(sha: Bytes -> Bytes, tree: Tree): Bytes {
    Stream(EntriesOf(sha, tree, SortedPaths(tree)))
  }

  function HexDigit(n: nat): char
    requires n < 16
  {
    "0123456789abcdef"[n]
  }

  function Hex(b: Bytes): string {
    if b == [] then "" else [HexDigit(b[0] / 16), HexDigit(b[0] % 16)] + Hex(b[1..])
  }

  function SnapshotId(sha: Bytes -> Bytes, tree: Tree): string {
    Hex(sha(StreamOf(sha, tree)))
  }

  /** A running hash object. */
  class Hasher {
    const sha: Bytes -> Bytes
    var fed: Bytes

    constructor (sha: Bytes -> Bytes)
      ensures this.sha == sha && fed == []
    {
      this.sha, fed := sha, [];
    }

    method Update(chunk: Bytes)
      modifies this
      ensures fed == old(fed) + chunk
    {
      fed := fed + chunk;
    }

    method HexDigest() returns (id: string)
      ensures id == Hex(sha(fed))
    {
      id := Hex(sha(fed));
    }
  }

  lemma {:induction false} StreamAppend(entries: seq<Entry>, e: Entry)
    ensures Stream(entries + [e]) == Stream(entries) + Piece(e)
  {
    if entries == [] {
      assert ([] + [e])[1..] == [];
    } else {
      assert (entries + [e])[1..] == entries[1..] + [e];
      StreamAppend(entries[1..], e);
    }
  }

  lemma StreamUpTo(sha: Bytes -> Bytes, tree: Tree, i: nat)
    requires Storable(tree) && i < |SortedPaths(tree)|
    ensures var p := SortedPaths(tree)[i];
            var entries := EntriesOf(sha, tree, SortedPaths(tree));
            p in tree && Stream(entries[..i + 1]) == Stream(entries[..i]) + Utf8(p) + [0] + sha(Utf8(tree[p]))
  {
    var p, entries := SortedPaths(tree)[i], EntriesOf(sha, tree, SortedPaths(tree));
    assert p in SortedPaths(tree);
    SortedPathsAreThePaths(tree, p);
    assert entries[..i + 1] == entries[..i] + [entries[i]];
    StreamAppend(entries[..i], entries[i]);
    Regrouped(Stream(entries[..i]), Utf8(p), [0], sha(Utf8(tree[p])));
  }

  lemma Regrouped(a: Bytes, b: Bytes, c: Bytes, d: Bytes)
    ensures a + (b + c + d) == a + b + c + d
  {
  }

  method TakeSnapshot(sha: Bytes -> Bytes, tree: Tree) returns (id: string)
    requires Storable(tree)
    ensures id == SnapshotId(sha, tree)
  {
    var h := new Hasher(sha);
    var paths := SortedPaths(tree);
    ghost var entries := EntriesOf(sha, tree, paths);
    for i := 0 to |paths|
      invariant h.sha == sha && h.fed == Stream(entries[..i])
    {
      StreamUpTo(sha, tree, i);
      h.Update(Utf8(paths[i]));
      h.Update([0]);
      h.Update(sha(Utf8(tree[paths[i]])));
    }
    assert entries[..|paths|] == entries;
    id := h.HexDigest();
  }

  lemma HexDigitIsInjective(m: nat, n: nat)
    requires m < 16 && n < 16 && HexDigit(m) == HexDigit(n)
    ensures m == n
  {
  }

  lemma {:induction false} HexIsInjective(a: Bytes, b: Bytes)
    requires Hex(a) == Hex(b)
    ensures a == b
  {
    assert |Hex(a)| == 0 <==> a == [];
    assert |Hex(b)| == 0 <==> b == [];
    if a != [] {
      var x, y := Hex(a), Hex(b);
      assert x[0] == y[0] && x[1] == y[1] && x[2..] == Hex(a[1..]) && y[2..] == Hex(b[1..]);
      HexDigitIsInjective(a[0] / 16, b[0] / 16);
      HexDigitIsInjective(a[0] % 16, b[0] % 16);
      HexIsInjective(a[1..], b[1..]);
      assert a == [a[0]] + a[1..] && b == [b[0]] + b[1..];
    }
  }

  // ---------------------------------------------------------------------------------------------
  // Equal ids mean equal trees

  /** Everything that is hashed on the way to a tree's id. */
  ghost predicate Hashed(sha: Bytes -> Bytes, tree: Tree, input: Bytes) {
    input == StreamOf(sha, tree) || exists p <- tree.Keys :: input == Utf8(tree[p])
  }

  /** Two different inputs, hashed for these two trees, that SHA-256 cannot tell apart. */
  ghost predicate Collide(sha: Bytes -> Bytes, a: Tree, b: Tree, x: Bytes, y: Bytes) {
    Hashed(sha, a, x) && Hashed(sha, b, y) && x != y && sha(x) == sha(y)
  }

  lemma EqualIdsMeanEqualStreams(sha: Bytes -> Bytes, a: Tree, b: Tree)
    requires SnapshotId(sha, a) == SnapshotId(sha, b)
    requires forall x, y :: !Collide(sha, a, b, x, y)
    ensures StreamOf(sha, a) == StreamOf(sha, b)
  {
    HexIsInjective(sha(StreamOf(sha, a)), sha(StreamOf(sha, b)));
    assert !Collide(sha, a, b, StreamOf(sha, a), StreamOf(sha, b));
  }

  lemma EntriesAreOk(sha: Bytes -> Bytes, tree: Tree)
    requires Storable(tree) && forall x :: |sha(x)| == 32
    ensures forall i :: 0 <= i < |SortedPaths(tree)| ==> EntryOk(EntriesOf(sha, tree, SortedPaths(tree))[i])
  {
    forall i | 0 <= i < |SortedPaths(tree)|
      ensures EntryOk(EntriesOf(sha, tree, SortedPaths(tree))[i])
    {
      assert SortedPaths(tree)[i] in SortedPaths(tree);
      SortedPathsAreThePaths(tree, SortedPaths(tree)[i]);
    }
  }

  lemma EqualStreamsMeanEqualFiles(sha: Bytes -> Bytes, a: Tree, b: Tree, p: Path)
    requires Storable(a) && Storable(b) && forall x :: |sha(x)| == 32
    requires StreamOf(sha, a) == StreamOf(sha, b)
    ensures p in a <==> p in b
    ensures p in a && p in b ==> sha(Utf8(a[p])) == sha(Utf8(b[p]))
  {
    var ps, qs := SortedPaths(a), SortedPaths(b);
    EntriesAreOk(sha, a);
    EntriesAreOk(sha, b);
    StreamIsUniquelyDecodable(EntriesOf(sha, a, ps), EntriesOf(sha, b, qs));
    forall i | 0 <= i < |ps|
      ensures i < |qs| && ps[i] == qs[i]
    {
      assert EntriesOf(sha, a, ps)[i] == EntriesOf(sha, b, qs)[i];
    }
    assert |ps| == |EntriesOf(sha, a, ps)| == |qs|;
    assert ps == qs;
    SortedPathsAreThePaths(a, p);
    SortedPathsAreThePaths(b, p);
    if p in a {
      var i :| 0 <= i < |ps| && ps[i] == p;
      assert EntriesOf(sha, a, ps)[i] == EntriesOf(sha, b, qs)[i];
    }
  }

  /** Two trees with one id are the same tree, or they exhibit a collision of SHA-256. */
  lemma EqualIdsMeanEqualTrees(sha: Bytes -> Bytes, a: Tree, b: Tree)
    requires Storable(a) && Storable(b) && forall x :: |sha(x)| == 32
    requires SnapshotId(sha, a) == SnapshotId(sha, b)
    ensures a == b || exists x, y :: Collide(sha, a, b, x, y)
  {
    if forall x, y :: !Collide(sha, a, b, x, y) {
      EqualIdsMeanEqualStreams(sha, a, b);
      forall p
        ensures p in a <==> p in b
        ensures p in a && p in b ==> a[p] == b[p]
      {
        EqualStreamsMeanEqualFiles(sha, a, b, p);
        if p in a && p in b {
          assert !Collide(sha, a, b, Utf8(a[p]), Utf8(b[p]));
          Utf8IsInjective(a[p], b[p]);
        }
      }
      assert a.Keys == b.Keys;
    }
  }
}
