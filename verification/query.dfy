/**
 * The store's query primitives, as the route handlers use them on the
 * in-memory collections: `findOne` is the first match in natural order,
 * `find` keeps every match in order, `sort` orders by a numeric key.
 */
module Query {

  /** Index of the first element satisfying `p`, or -1 when there is none. */
  function FindFirst<T>(s: seq<T>, p: T -> bool): (k: int)
    ensures -1 <= k < |s|
    ensures 0 <= k ==> p(s[k])
    ensures 0 <= k ==> forall j :: 0 <= j < k ==> !p(s[j])
    ensures k == -1 <==> forall j :: 0 <= j < |s| ==> !p(s[j])
  {
    if |s| == 0 then -1
    else if p(s[0]) then 0
    else
      var k := FindFirst(s[1..], p);
      if k == -1 then -1 else k + 1
  }

  /** The elements satisfying `p`, in their original order. */
  function Filter<T(!new)>(s: seq<T>, p: T -> bool): (r: seq<T>)
    ensures |r| <= |s|
    ensures forall x :: x in r <==> x in s && p(x)
  {
    if |s| == 0 then []
    else (if p(s[0]) then [s[0]] else []) + Filter(s[1..], p)
  }

  /** `s` with the element at index `k` taken out (a single-document delete). */
  function RemoveAt<T>(s: seq<T>, k: nat): (r: seq<T>)
    requires k < |s|
    ensures |r| == |s| - 1
    ensures forall j :: 0 <= j < k ==> r[j] == s[j]
    ensures forall j :: k <= j < |r| ==> r[j] == s[j + 1]
  {
    s[..k] + s[k + 1..]
  }

  ghost predicate SortedBy<T>(s: seq<T>, key: T -> int) {
    forall i, j :: 0 <= i < j < |s| ==> key(s[i]) <= key(s[j])
  }

  /** How many leading elements of the sorted `s` have a key not larger than `x`'s. */
  function InsertPosition<T>(x: T, s: seq<T>, key: T -> int): (n: nat)
    ensures n <= |s|
    ensures forall i :: 0 <= i < n ==> key(s[i]) <= key(x)
    ensures n < |s| ==> key(x) < key(s[n])
  {
    if |s| == 0 || key(x) < key(s[0]) then 0 else 1 + InsertPosition(x, s[1..], key)
  }

  lemma SpliceMultiset<T>(s: seq<T>, n: nat, x: T)
    requires n <= |s|
    ensures multiset(s[..n] + [x] + s[n..]) == multiset(s) + multiset{x}
  {
    assert s == s[..n] + s[n..];
  }

  /** `x` placed into the sorted `s` after every element whose key is not larger. */
  function Insert<T(==)>(x: T, s: seq<T>, key: T -> int): (r: seq<T>)
    requires SortedBy(s, key)
    ensures SortedBy(r, key)
    ensures multiset(r) == multiset(s) + multiset{x}
  {
    var n := InsertPosition(x, s, key);
    var r := s[..n] + [x] + s[n..];
    assert forall i :: 0 <= i < |r| ==> r[i] == (if i < n then s[i] else if i == n then x else s[i - 1]);
    SpliceMultiset(s, n, x);
    r
  }

  /** A permutation of `s` ordered by ascending `key`; the order of ties is not promised. */
  function SortBy<T(==)>(s: seq<T>, key: T -> int): (r: seq<T>)
    ensures SortedBy(r, key)
    ensures multiset(r) == multiset(s)
  {
    if |s| == 0 then []
    else
      assert s == [s[0]] + s[1..];
      Insert(s[0], SortBy(s[1..], key), key)
  }
}
