/** Sorting by an integer key, standing in for Python's `sorted(..., key=...)` and for
    the SQL `ORDER BY` of the query layer. */
module Sorting {

  predicate SortedBy<T>(s: seq<T>, key: T -> int) {
    forall i, j :: 0 <= i < j < |s| ==> key(s[i]) <= key(s[j])
  }

  /** Where `x` goes in a sorted sequence: after every smaller key, before the rest. */
  function InsertionPoint<T>(x: T, s: seq<T>, key: T -> int): (k: nat)
    requires SortedBy(s, key)
    ensures k <= |s|
    ensures forall i :: 0 <= i < k ==> key(s[i]) < key(x)
    ensures forall i :: k <= i < |s| ==> key(x) <= key(s[i])
  {
    if s == [] || key(x) <= key(s[0]) then 0 else 1 + InsertionPoint(x, s[1..], key)
  }

  /** Inserts `x` into a sorted sequence before the first element with a larger or equal key. */
  function Insert<T>(x: T, s: seq<T>, key: T -> int): (r: seq<T>)
    requires SortedBy(s, key)
    ensures SortedBy(r, key)
    ensures multiset(r) == multiset(s) + multiset{x}
    ensures |r| == |s| + 1
  {
    var k := InsertionPoint(x, s, key);
    assert s == s[..k] + s[k..];
    InsertKeepsOrder(x, s, key, k);
    s[..k] + [x] + s[k..]
  }

  /** The element at position `i` after putting `x` at position `k`. */
  lemma InsertedAt<T>(x: T, s: seq<T>, k: nat, i: nat)
    requires k <= |s| && i <= |s|
    ensures (s[..k] + [x] + s[k..])[i] == if i < k then s[i] else if i == k then x else s[i - 1]
  {
  }

  /** Putting `x` after every smaller key and before the rest keeps the order. */
  lemma InsertKeepsOrder<T>(x: T, s: seq<T>, key: T -> int, k: nat)
    requires SortedBy(s, key) && k <= |s|
    requires forall i :: 0 <= i < k ==> key(s[i]) < key(x)
    requires forall i :: k <= i < |s| ==> key(x) <= key(s[i])
    ensures SortedBy(s[..k] + [x] + s[k..], key)
  {
    var r := s[..k] + [x] + s[k..];
    forall i, j | 0 <= i < j < |r|
      ensures key(r[i]) <= key(r[j])
    {
      InsertedAt(x, s, k, i);
      InsertedAt(x, s, k, j);
    }
  }

  /** A rearrangement of `s` in non-decreasing key order. */
  function SortBy<T>(s: seq<T>, key: T -> int): (r: seq<T>)
    ensures SortedBy(r, key)
    ensures multiset(r) == multiset(s)
    ensures |r| == |s|
  {
    if s == [] then []
    else
      assert s == [s[0]] + s[1..];
      Insert(s[0], SortBy(s[1..], key), key)
  }
}
