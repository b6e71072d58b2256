/** Shared vocabulary: the optional value that stands for JavaScript's
    `null`/`undefined`, the request lifecycle status used by both slices,
    and order-preserving filtering over sequences. */
module Common {

  /** `None` is JavaScript's `null` or `undefined`. */
  datatype Option<+T> = None | Some(value: T)

  /** The four request states shared by the sales and auth slices
      (`REDUX_STATUS` in src/constants/index.js). */
  datatype FetchStatus = Idle | Loading | Succeeded | Failed

  /** `sub` can be obtained from `xs` by deleting elements, keeping the order. */
  predicate IsSubseq<T(==)>(sub: seq<T>, xs: seq<T>)
    decreases |xs|
  {
    if |sub| == 0 then true
    else if |xs| == 0 then false
    else (sub[0] == xs[0] && IsSubseq(sub[1..], xs[1..])) || IsSubseq(sub, xs[1..])
  }

  lemma {:induction false} SubseqTrans<T>(a: seq<T>, b: seq<T>, c: seq<T>)
    requires IsSubseq(a, b) && IsSubseq(b, c)
    ensures IsSubseq(a, c)
    decreases |c|
  {
    if |a| == 0 {
    } else if |b| == 0 {
    } else if |c| == 0 {
    } else if b[0] == c[0] && IsSubseq(b[1..], c[1..]) {
      if a[0] == b[0] && IsSubseq(a[1..], b[1..]) {
        SubseqTrans(a[1..], b[1..], c[1..]);
      } else {
        SubseqTrans(a, b[1..], c[1..]);
      }
    } else {
      SubseqTrans(a, b, c[1..]);
    }
  }

  /** `Array.prototype.filter`: the elements satisfying `p`, in their
      original order and with their original multiplicities. */
  function Filter<T(!new)>(xs: seq<T>, p: T -> bool): (r: seq<T>)
    ensures |r| <= |xs|
    ensures IsSubseq(r, xs)
    ensures forall x :: x in r ==> p(x)
    ensures forall x :: multiset(r)[x] == if p(x) then multiset(xs)[x] else 0
    decreases |xs|
  {
    if |xs| == 0 then []
    else
      var rest := Filter(xs[1..], p);
      assert xs == [xs[0]] + xs[1..];
      if p(xs[0]) then [xs[0]] + rest else rest
  }

  /** Filtering by a weaker predicate keeps at least as much, and the
      smaller result is a subsequence of the larger. */
  lemma {:induction false} FilterMonotone<T(!new)>(xs: seq<T>, p: T -> bool, q: T -> bool)
    requires forall x :: p(x) ==> q(x)
    ensures IsSubseq(Filter(xs, p), Filter(xs, q))
    decreases |xs|
  {
    if |xs| > 0 {
      FilterMonotone(xs[1..], p, q);
      var rp, rq := Filter(xs[1..], p), Filter(xs[1..], q);
      if p(xs[0]) {
        assert ([xs[0]] + rp)[1..] == rp;
        assert ([xs[0]] + rq)[1..] == rq;
      } else if q(xs[0]) {
        assert ([xs[0]] + rq)[1..] == rq;
      }
    }
  }

  /** `xs.reduce((total, x) => total + f(x), 0)`, folded from the left. */
  function SumOf<T>(xs: seq<T>, f: T -> int): int
    decreases |xs|
  {
    if |xs| == 0 then 0 else SumOf(xs[..|xs| - 1], f) + f(xs[|xs| - 1])
  }

  lemma {:induction false} SumOfConcat<T>(a: seq<T>, b: seq<T>, f: T -> int)
    ensures SumOf(a + b, f) == SumOf(a, f) + SumOf(b, f)
    decreases |b|
  {
    if |b| == 0 {
      assert a + b == a;
    } else {
      var n := |b| - 1;
      assert (a + b)[..|a + b| - 1] == a + b[..n];
      assert (a + b)[|a + b| - 1] == b[n];
      SumOfConcat(a, b[..n], f);
    }
  }

  lemma SumOfSingle<T>(x: T, f: T -> int)
    ensures SumOf([x], f) == f(x)
  {
    assert [x][..0] == [];
  }

  /** Replacing one element changes the sum by the difference. */
  lemma SumOfUpdate<T>(xs: seq<T>, i: int, y: T, f: T -> int)
    requires 0 <= i < |xs|
    ensures SumOf(xs[i := y], f) == SumOf(xs, f) - f(xs[i]) + f(y)
  {
    SplitAround(xs, i);
    SplitAround(xs[i := y], i);
    assert xs[i := y][..i] == xs[..i] && xs[i := y][i + 1..] == xs[i + 1..];
    SumOfMiddle(xs[..i], xs[i], xs[i + 1..], f);
    SumOfMiddle(xs[..i], y, xs[i + 1..], f);
  }

  /** The sum of a sequence with an element in its middle. */
  lemma SumOfMiddle<T>(pre: seq<T>, x: T, post: seq<T>, f: T -> int)
    ensures SumOf(pre + [x] + post, f) == SumOf(pre + post, f) + f(x)
  {
    SumOfConcat(pre + [x], post, f);
    SumOfConcat(pre, [x], f);
    SumOfConcat(pre, post, f);
    SumOfSingle(x, f);
  }

  /** Taking out one element splits the sum around it. */
  lemma SumOfRemove<T>(xs: seq<T>, i: int, f: T -> int)
    requires 0 <= i < |xs|
    ensures SumOf(xs, f) == SumOf(xs[..i] + xs[i + 1..], f) + f(xs[i])
  {
    SplitAround(xs, i);
    SumOfMiddle(xs[..i], xs[i], xs[i + 1..], f);
  }

  /** A sequence is its part before `i`, its `i`th element and its part after. */
  lemma SplitAround<T>(xs: seq<T>, i: int)
    requires 0 <= i < |xs|
    ensures xs == xs[..i] + [xs[i]] + xs[i + 1..]
  {
  }

  /** Removing the same element from two permutations of each other
      leaves permutations of each other. */
  lemma RemoveFromBoth<T>(a: seq<T>, b: seq<T>, i: int)
    requires multiset(a) == multiset(b)
    requires |a| > 0 && 0 <= i < |b| && b[i] == a[|a| - 1]
    ensures multiset(a[..|a| - 1]) == multiset(b[..i] + b[i + 1..])
  {
    var n := |a| - 1;
    var x := a[n];
    assert a == a[..n] + [x];
    assert b == b[..i] + [x] + b[i + 1..];
    var rest := b[..i] + b[i + 1..];
    assert multiset(b) == multiset(rest) + multiset{x};
    assert multiset(a) == multiset(a[..n]) + multiset{x};
    forall y
      ensures multiset(a[..n])[y] == multiset(rest)[y]
    {
      assert (multiset(a[..n]) + multiset{x})[y] == (multiset(rest) + multiset{x})[y];
    }
  }

  /** Rearranging a sequence does not change its sum. */
  lemma {:induction false} SumOfPermutation<T>(a: seq<T>, b: seq<T>, f: T -> int)
    requires multiset(a) == multiset(b)
    ensures SumOf(a, f) == SumOf(b, f)
    decreases |a|
  {
    if |a| > 0 {
      var n := |a| - 1;
      assert a[n] in multiset(b);
      var i :| 0 <= i < |b| && b[i] == a[n];
      RemoveFromBoth(a, b, i);
      SumOfPermutation(a[..n], b[..i] + b[i + 1..], f);
      SumOfRemove(b, i, f);
    }
  }

  /** Two sequences that agree position by position have equal sums. */
  lemma {:induction false} SumOfPointwise<A, B>(a: seq<A>, f: A -> int, b: seq<B>, g: B -> int)
    requires |a| == |b|
    requires forall i :: 0 <= i < |a| ==> f(a[i]) == g(b[i])
    ensures SumOf(a, f) == SumOf(b, g)
    decreases |a|
  {
    if |a| > 0 {
      var n := |a| - 1;
      SumOfPointwise(a[..n], f, b[..n], g);
    }
  }
}
