/** The stable ascending sort that `Array.prototype.sort` performs with a numeric key. */
module Sorting {

  function Insert<T>(x: T, sorted: seq<T>, key: T -> int): (r: seq<T>)
  {
    if sorted == [] || key(x) <= key(sorted[0]) then [x] + sorted
    else [sorted[0]] + Insert(x, sorted[1..], key)
  }

  function Sort<T>(s: seq<T>, key: T -> int): (r: seq<T>)
  {
    if s == [] then [] else Insert(s[0], Sort(s[1..], key), key)
  }

  predicate NonDecreasing<T>(s: seq<T>, key: T -> int)
  {
    forall i, j :: 0 <= i < j < |s| ==> key(s[i]) <= key(s[j])
  }

  lemma {:induction false} InsertKeepsAll<T>(x: T, sorted: seq<T>, key: T -> int)
    ensures multiset(Insert(x, sorted, key)) == multiset(sorted) + multiset{x}
  {
    if sorted != [] && key(x) > key(sorted[0]) {
      InsertKeepsAll(x, sorted[1..], key);
      assert sorted == [sorted[0]] + sorted[1..];
    }
  }

  lemma {:induction false} InsertOrders<T>(x: T, sorted: seq<T>, key: T -> int, floor: int)
    requires NonDecreasing(sorted, key) && floor <= key(x) && forall i :: 0 <= i < |sorted| ==> floor <= key(sorted[i])
    ensures NonDecreasing(Insert(x, sorted, key), key)
    ensures forall i :: 0 <= i < |Insert(x, sorted, key)| ==> floor <= key(Insert(x, sorted, key)[i])
  {
    if sorted != [] && key(x) > key(sorted[0]) {
      InsertOrders(x, sorted[1..], key, key(sorted[0]));
    }
  }

  lemma {:induction false} SortKeepsAll<T>(s: seq<T>, key: T -> int)
    ensures multiset(Sort(s, key)) == multiset(s) && |Sort(s, key)| == |s|
  {
    if s != [] {
      SortKeepsAll(s[1..], key);
      InsertKeepsAll(s[0], Sort(s[1..], key), key);
      assert s == [s[0]] + s[1..];
      assert |multiset(Sort(s, key))| == |multiset(s)|;
    }
  }

  lemma {:induction false} SortOrders<T>(s: seq<T>, key: T -> int, floor: int)
    requires forall i :: 0 <= i < |s| ==> floor <= key(s[i])
    ensures NonDecreasing(Sort(s, key), key) && forall i :: 0 <= i < |Sort(s, key)| ==> floor <= key(Sort(s, key)[i])
  {
    if s != [] {
      SortOrders(s[1..], key, floor);
      InsertOrders(s[0], Sort(s[1..], key), key, floor);
    }
  }

  /** Sorting what is already in order changes nothing. */
  lemma {:induction false} SortedStays<T>(s: seq<T>, key: T -> int)
    requires NonDecreasing(s, key)
    ensures Sort(s, key) == s
  {
    if s != [] {
      SortedStays(s[1..], key);
      assert s == [s[0]] + s[1..];
    }
  }
}
