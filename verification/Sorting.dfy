/**
 Stable sorting by a key (Python's `sorted(items, key=...)`), as the index serializer uses it.

 The characterization is exact: two lists sort to the same list if and only if for every key they hold the same
 items in the same order. Idempotence and insensitivity to order under distinct keys follow from it.
 */
module Sorting {
  import opened Strings

  /** The comparison tuples of the index: two numbers, then two strings. */
  datatype Key = Key(line: int, col: int, name: string, kind: string)

  predicate KeyLeq(a: Key, b: Key) {
    if a.line != b.line then a.line < b.line
    else if a.col != b.col then a.col < b.col
    else if a.name != b.name then Leq(a.name, b.name)
    else Leq(a.kind, b.kind)
  }

  lemma KeyLeqIsOrder(a: Key, b: Key)
    ensures KeyLeq(a, b) || KeyLeq(b, a)
    ensures KeyLeq(a, b) && KeyLeq(b, a) ==> a == b
  {
    LeqIsTotal(a.name, b.name);
    LeqIsTotal(a.kind, b.kind);
  }

  lemma KeyLeqIsTransitive(a: Key, b: Key, c: Key)
    requires KeyLeq(a, b) && KeyLeq(b, c)
    ensures KeyLeq(a, c)
  {
    if a.name == b.name == c.name && Leq(a.kind, b.kind) && Leq(b.kind, c.kind) {
      LeqIsTransitive(a.kind, b.kind, c.kind);
    }
    if Leq(a.name, b.name) && Leq(b.name, c.name) {
      LeqIsTransitive(a.name, b.name, c.name);
      LeqIsTotal(a.name, b.name);
      LeqIsTotal(b.name, c.name);
    }
  }

  function InsertBy<T>(key: T -> Key, x: T, sorted: seq<T>): seq<T> {
    if sorted == [] || KeyLeq(key(sorted[|sorted| - 1]), key(x)) then sorted + [x]
    else InsertBy(key, x, sorted[..|sorted| - 1]) + [sorted[|sorted| - 1]]
  }

  function SortBy<T>(key: T -> Key, items: seq<T>): seq<T> {
    if items == [] then [] else InsertBy(key, items[|items| - 1], SortBy(key, items[..|items| - 1]))
  }

  lemma {:induction false} InsertIsPermutation<T>(key: T -> Key, x: T, sorted: seq<T>)
    ensures multiset(InsertBy(key, x, sorted)) == multiset(sorted) + multiset{x}
  {
    var n := |sorted|;
    if n > 0 {
      InsertIsPermutation(key, x, sorted[..n - 1]);
      assert sorted == sorted[..n - 1] + [sorted[n - 1]];
    }
  }

  lemma {:induction false} SortIsPermutation<T>(key: T -> Key, items: seq<T>)
    ensures multiset(SortBy(key, items)) == multiset(items)
  {
    if items != [] {
      var n := |items| - 1;
      SortIsPermutation(key, items[..n]);
      InsertIsPermutation(key, items[n], SortBy(key, items[..n]));
      assert items == items[..n] + [items[n]];
    }
  }

  /** The items with one key, in order. */
  function WithKey<T>(key: T -> Key, items: seq<T>, k: Key): seq<T> {
    if items == [] then []
    else WithKey(key, items[..|items| - 1], k)
         + (if key(items[|items| - 1]) == k then [items[|items| - 1]] else [])
  }

  predicate Sorted<T>(key: T -> Key, items: seq<T>) {
    |items| <= 1
    || (Sorted(key, items[..|items| - 1]) && KeyLeq(key(items[|items| - 2]), key(items[|items| - 1])))
  }

  lemma WithKeyAppend<T>(key: T -> Key, items: seq<T>, x: T, k: Key)
    ensures WithKey(key, items + [x], k) == WithKey(key, items, k) + (if key(x) == k then [x] else [])
  {
    assert (items + [x])[..|items|] == items;
  }

  lemma {:induction false} InsertIsSorted<T>(key: T -> Key, x: T, sorted: seq<T>)
    requires Sorted(key, sorted)
    ensures Sorted(key, InsertBy(key, x, sorted))
    ensures var r := InsertBy(key, x, sorted);
            r != [] && (key(r[|r| - 1]) == key(x) || (sorted != [] && key(r[|r| - 1]) == key(sorted[|sorted| - 1])))
  {
    var n := |sorted|;
    if n == 0 || KeyLeq(key(sorted[n - 1]), key(x)) {
      assert (sorted + [x])[..n] == sorted;
    } else {
      var front, last := sorted[..n - 1], sorted[n - 1];
      var inner := InsertBy(key, x, front);
      InsertIsSorted(key, x, front);
      KeyLeqIsOrder(key(last), key(x));
      assert (inner + [last])[..|inner|] == inner;
    }
  }

  lemma {:induction false} SortIsSorted<T>(key: T -> Key, items: seq<T>)
    ensures Sorted(key, SortBy(key, items))
  {
    if items != [] {
      SortIsSorted(key, items[..|items| - 1]);
      InsertIsSorted(key, items[|items| - 1], SortBy(key, items[..|items| - 1]));
    }
  }

  lemma {:induction false} SortedPairwise<T>(key: T -> Key, items: seq<T>, i: nat, j: nat)
    requires Sorted(key, items) && i < j < |items|
    ensures KeyLeq(key(items[i]), key(items[j]))
  {
    var n := |items|;
    if j < n - 1 {
      SortedPairwise(key, items[..n - 1], i, j);
    } else if i < j - 1 {
      SortedPairwise(key, items[..n - 1], i, j - 1);
      KeyLeqIsTransitive(key(items[i]), key(items[j - 1]), key(items[j]));
    }
  }

  lemma {:induction false} InsertKeepsGroups<T>(key: T -> Key, x: T, sorted: seq<T>, k: Key)
    ensures WithKey(key, InsertBy(key, x, sorted), k) == WithKey(key, sorted, k) + (if key(x) == k then [x] else [])
  {
    var n := |sorted|;
    if n == 0 || KeyLeq(key(sorted[n - 1]), key(x)) {
      WithKeyAppend(key, sorted, x, k);
    } else {
      var front, last := sorted[..n - 1], sorted[n - 1];
      InsertKeepsGroups(key, x, front, k);
      KeyLeqIsOrder(key(last), key(last));
      WithKeyAppend(key, InsertBy(key, x, front), last, k);
    }
  }

  /** Sorting is stable: it keeps every group of equal keys as it was. */
  lemma {:induction false} SortKeepsGroups<T>(key: T -> Key, items: seq<T>, k: Key)
    ensures WithKey(key, SortBy(key, items), k) == WithKey(key, items, k)
  {
    if items != [] {
      SortKeepsGroups(key, items[..|items| - 1], k);
      InsertKeepsGroups(key, items[|items| - 1], SortBy(key, items[..|items| - 1]), k);
    }
  }

  lemma {:induction false} GroupIsBelowLast<T>(key: T -> Key, items: seq<T>, k: Key)
    requires Sorted(key, items) && WithKey(key, items, k) != []
    ensures items != [] && KeyLeq(k, key(items[|items| - 1]))
  {
    var n := |items|;
    KeyLeqIsOrder(k, k);
    if key(items[n - 1]) != k {
      GroupIsBelowLast(key, items[..n - 1], k);
      KeyLeqIsTransitive(k, key(items[n - 2]), key(items[n - 1]));
    }
  }

  ghost predicate SameGroups<T>(key: T -> Key, a: seq<T>, b: seq<T>) {
    forall k :: WithKey(key, a, k) == WithKey(key, b, k)
  }

  lemma LastKeyIsReached<T>(key: T -> Key, a: seq<T>, b: seq<T>)
    requires Sorted(key, b) && SameGroups(key, a, b) && a != []
    ensures b != [] && KeyLeq(key(a[|a| - 1]), key(b[|b| - 1]))
  {
    var k := key(a[|a| - 1]);
    assert WithKey(key, a, k) == WithKey(key, b, k);
    GroupIsBelowLast(key, b, k);
  }

  lemma LastOfGroup<T>(key: T -> Key, items: seq<T>)
    requires items != []
    ensures var last := items[|items| - 1];
            var group := WithKey(key, items, key(last)); group != [] && group[|group| - 1] == last
  {
  }

  lemma SameLast<T>(key: T -> Key, a: seq<T>, b: seq<T>)
    requires Sorted(key, a) && Sorted(key, b) && SameGroups(key, a, b) && a != []
    ensures b != [] && a[|a| - 1] == b[|b| - 1]
  {
    LastKeyIsReached(key, a, b);
    LastKeyIsReached(key, b, a);
    KeyLeqIsOrder(key(a[|a| - 1]), key(b[|b| - 1]));
    LastOfGroup(key, a);
    LastOfGroup(key, b);
    assert WithKey(key, a, key(a[|a| - 1])) == WithKey(key, b, key(a[|a| - 1]));
  }

  lemma Cancel<T>(x: seq<T>, y: seq<T>, end: seq<T>)
    requires x + end == y + end
    ensures x == y
  {
    assert |x| == |y|;
    assert x == (x + end)[..|x|] && y == (y + end)[..|y|];
  }

  lemma FrontsHaveSameGroups<T>(key: T -> Key, a: seq<T>, b: seq<T>)
    requires SameGroups(key, a, b) && a != [] && b != [] && a[|a| - 1] == b[|b| - 1]
    ensures SameGroups(key, a[..|a| - 1], b[..|b| - 1])
  {
    var x, y, last := a[..|a| - 1], b[..|b| - 1], a[|a| - 1];
    forall k
      ensures WithKey(key, x, k) == WithKey(key, y, k)
    {
      assert WithKey(key, a, k) == WithKey(key, b, k);
      Cancel(WithKey(key, x, k), WithKey(key, y, k), if key(last) == k then [last] else []);
    }
  }

  /** A sorted list is determined by its groups. */
  lemma {:induction false} SortedIsUnique<T>(key: T -> Key, a: seq<T>, b: seq<T>)
    requires Sorted(key, a) && Sorted(key, b) && SameGroups(key, a, b)
    ensures a == b
    decreases |a|
  {
    if a != [] {
      SameLast(key, a, b);
      FrontsHaveSameGroups(key, a, b);
      SortedIsUnique(key, a[..|a| - 1], b[..|b| - 1]);
      assert a == a[..|a| - 1] + [a[|a| - 1]] && b == b[..|b| - 1] + [b[|b| - 1]];
    } else if b != [] {
      LastKeyIsReached(key, b, a);
    }
  }

  lemma SortHasSameGroups<T>(key: T -> Key, items: seq<T>)
    ensures SameGroups(key, SortBy(key, items), items)
  {
    forall k
      ensures WithKey(key, SortBy(key, items), k) == WithKey(key, items, k)
    {
      SortKeepsGroups(key, items, k);
    }
  }

  lemma SameGroupsIsTransitive<T>(key: T -> Key, a: seq<T>, b: seq<T>, c: seq<T>)
    requires SameGroups(key, a, b) && SameGroups(key, b, c)
    ensures SameGroups(key, a, c)
  {
    forall k
      ensures WithKey(key, a, k) == WithKey(key, c, k)
    {
      assert WithKey(key, a, k) == WithKey(key, b, k) && WithKey(key, b, k) == WithKey(key, c, k);
    }
  }

  lemma SameGroupsIsSymmetric<T>(key: T -> Key, a: seq<T>, b: seq<T>)
    requires SameGroups(key, a, b)
    ensures SameGroups(key, b, a)
  {
    forall k
      ensures WithKey(key, b, k) == WithKey(key, a, k)
    {
      assert WithKey(key, a, k) == WithKey(key, b, k);
    }
  }

  /** Two lists sort to the same list exactly when they agree group by group. */
  lemma SortsAlikeIff<T>(key: T -> Key, a: seq<T>, b: seq<T>)
    ensures SortBy(key, a) == SortBy(key, b) <==> SameGroups(key, a, b)
  {
    SortHasSameGroups(key, a);
    SortHasSameGroups(key, b);
    SameGroupsIsSymmetric(key, SortBy(key, a), a);
    SameGroupsIsSymmetric(key, SortBy(key, b), b);
    if SameGroups(key, a, b) {
      SameGroupsIsTransitive(key, SortBy(key, a), a, b);
      SameGroupsIsTransitive(key, SortBy(key, a), b, SortBy(key, b));
      SortIsSorted(key, a);
      SortIsSorted(key, b);
      SortedIsUnique(key, SortBy(key, a), SortBy(key, b));
    } else if SortBy(key, a) == SortBy(key, b) {
      SameGroupsIsTransitive(key, a, SortBy(key, a), b);
    }
  }

  lemma SortOfSorted<T>(key: T -> Key, items: seq<T>)
    requires Sorted(key, items)
    ensures SortBy(key, items) == items
  {
    SortHasSameGroups(key, items);
    SortIsSorted(key, items);
    SortedIsUnique(key, SortBy(key, items), items);
  }

  lemma SortIsIdempotent<T>(key: T -> Key, items: seq<T>)
    ensures SortBy(key, SortBy(key, items)) == SortBy(key, items)
  {
    SortIsSorted(key, items);
    SortOfSorted(key, SortBy(key, items));
  }

  // ---------------------------------------------------------------------------------------------
  // Distinct keys make the order of the input irrelevant

  ghost predicate DistinctKeys<T>(key: T -> Key, items: seq<T>) {
    forall i, j :: 0 <= i < j < |items| ==> key(items[i]) != key(items[j])
  }

  lemma {:induction false} NoGroup<T>(key: T -> Key, items: seq<T>, k: Key)
    requires forall i :: 0 <= i < |items| ==> key(items[i]) != k
    ensures WithKey(key, items, k) == []
  {
    if items != [] {
      NoGroup(key, items[..|items| - 1], k);
    }
  }

  lemma {:induction false} GroupOfOne<T>(key: T -> Key, items: seq<T>, i: nat)
    requires DistinctKeys(key, items) && i < |items|
    ensures WithKey(key, items, key(items[i])) == [items[i]]
  {
    var n := |items|;
    if i == n - 1 {
      NoGroup(key, items[..n - 1], key(items[i]));
    } else {
      GroupOfOne(key, items[..n - 1], i);
    }
  }

  lemma SameGroupByKey<T>(key: T -> Key, a: seq<T>, b: seq<T>, i: nat)
    requires multiset(a) == multiset(b) && DistinctKeys(key, a) && DistinctKeys(key, b) && i < |a|
    ensures WithKey(key, a, key(a[i])) == WithKey(key, b, key(a[i]))
  {
    assert a[i] in multiset(a);
    var j: nat :| j < |b| && b[j] == a[i];
    GroupOfOne(key, a, i);
    GroupOfOne(key, b, j);
  }

  /** With distinct keys any two orders of the same items sort to the same list. */
  lemma PermutationsSortAlike<T>(key: T -> Key, a: seq<T>, b: seq<T>)
    requires multiset(a) == multiset(b) && DistinctKeys(key, a) && DistinctKeys(key, b)
    ensures SortBy(key, a) == SortBy(key, b)
  {
    forall k
      ensures WithKey(key, a, k) == WithKey(key, b, k)
    {
      if i: nat :| i < |a| && key(a[i]) == k {
        SameGroupByKey(key, a, b, i);
      } else if j: nat :| j < |b| && key(b[j]) == k {
        SameGroupByKey(key, b, a, j);
      } else {
        NoGroup(key, a, k);
        NoGroup(key, b, k);
      }
    }
    SortsAlikeIff(key, a, b);
  }
}
