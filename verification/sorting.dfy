/** `Array.prototype.sort` with a numeric comparator `(a, b) => key(a) - key(b)`,
    as used for month buckets (by timestamp) and for price points (by price).
    JavaScript's sort is stable; the insertion sort below is too, inserting
    each element after those with an equal key. */
module Sorting {

  predicate SortedBy<T>(xs: seq<T>, key: T -> int) {
    forall i, j :: 0 <= i < j < |xs| ==> key(xs[i]) <= key(xs[j])
  }

  predicate StrictlySortedBy<T>(xs: seq<T>, key: T -> int) {
    forall i, j :: 0 <= i < j < |xs| ==> key(xs[i]) < key(xs[j])
  }

  /** No two positions carry the same key. */
  predicate KeysDistinct<T>(xs: seq<T>, key: T -> int) {
    forall i, j :: 0 <= i < j < |xs| ==> key(xs[i]) != key(xs[j])
  }

  function Insert<T(!new)>(x: T, xs: seq<T>, key: T -> int): (r: seq<T>)
    requires SortedBy(xs, key)
    ensures SortedBy(r, key)
    ensures multiset(r) == multiset(xs) + multiset{x}
    ensures |r| == |xs| + 1
    ensures forall y :: y in r <==> y in xs || y == x
    decreases |xs|
  {
    if |xs| == 0 || key(x) < key(xs[0]) then
      ConsSorted(x, xs, key);
      [x] + xs
    else
      var rest := Insert(x, xs[1..], key);
      assert xs == [xs[0]] + xs[1..];
      ConsSorted(xs[0], rest, key);
      [xs[0]] + rest
  }

  /** A head no larger than any element of a sorted tail keeps it sorted. */
  lemma ConsSorted<T(!new)>(h: T, t: seq<T>, key: T -> int)
    requires SortedBy(t, key)
    requires forall y :: y in t ==> key(h) <= key(y)
    ensures SortedBy([h] + t, key)
  {
    var r := [h] + t;
    forall i, j | 0 <= i < j < |r|
      ensures key(r[i]) <= key(r[j])
    {
      assert r[j] == t[j - 1];
      if i > 0 {
        assert r[i] == t[i - 1];
      }
    }
  }

  lemma {:induction false} InsertDistinct<T(!new)>(x: T, xs: seq<T>, key: T -> int)
    requires SortedBy(xs, key) && KeysDistinct(xs, key)
    requires forall y :: y in xs ==> key(y) != key(x)
    ensures KeysDistinct(Insert(x, xs, key), key)
    decreases |xs|
  {
    if |xs| > 0 && key(xs[0]) <= key(x) {
      InsertDistinct(x, xs[1..], key);
      var rest := Insert(x, xs[1..], key);
      assert forall y :: y in rest ==> key(y) != key(xs[0]);
    }
  }

  /** The elements of `xs` rearranged into ascending key order. */
  function SortBy<T(!new)>(xs: seq<T>, key: T -> int): (r: seq<T>)
    ensures SortedBy(r, key)
    ensures multiset(r) == multiset(xs)
    ensures |r| == |xs|
    ensures forall y :: y in r <==> y in xs
    ensures KeysDistinct(xs, key) ==> KeysDistinct(r, key)
    decreases |xs|
  {
    if |xs| == 0 then []
    else
      var n := |xs| - 1;
      var init := SortBy(xs[..n], key);
      assert xs == xs[..n] + [xs[n]];
      if KeysDistinct(xs, key) then
        InsertDistinct(xs[n], init, key);
        Insert(xs[n], init, key)
      else
        Insert(xs[n], init, key)
  }

  /** Sorting with distinct keys orders them strictly. */
  lemma SortDistinctIsStrict<T(!new)>(xs: seq<T>, key: T -> int)
    requires KeysDistinct(xs, key)
    ensures StrictlySortedBy(SortBy(xs, key), key)
  {
  }
}
