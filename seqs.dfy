/** Row-selection primitives shared by the data-frame models: boolean-mask
    filtering (`df[mask]`), `head(n)` and order-preserving subsequences. */
module Seqs {

  /** `xs[mask]` where the mask is `p`: the rows satisfying `p`, in their order. */
  function Filter<T(!new)>(xs: seq<T>, p: T -> bool): (r: seq<T>)
    ensures |r| <= |xs|
    ensures forall x :: x in r <==> x in xs && p(x)
  {
    if |xs| == 0 then []
    else (if p(xs[0]) then [xs[0]] else []) + Filter(xs[1..], p)
  }

  lemma {:induction false} FilterAppend<T(!new)>(a: seq<T>, b: seq<T>, p: T -> bool)
    ensures Filter(a + b, p) == Filter(a, p) + Filter(b, p)
    decreases |a|
  {
    if |a| > 0 {
      assert (a + b)[1..] == a[1..] + b;
      FilterAppend(a[1..], b, p);
    } else {
      assert a + b == b;
    }
  }

  /** Filtering with a test that every row passes keeps them all. */
  lemma {:induction false} FilterAll<T(!new)>(xs: seq<T>, p: T -> bool)
    requires forall x :: x in xs ==> p(x)
    ensures Filter(xs, p) == xs
    decreases |xs|
  {
    if |xs| > 0 {
      FilterAll(xs[1..], p);
      assert xs == [xs[0]] + xs[1..];
    }
  }

  /** `xs` can be obtained from `ys` by deleting elements. */
  predicate IsSubsequence<T(==)>(xs: seq<T>, ys: seq<T>)
    decreases |ys|
  {
    if |xs| == 0 then true
    else if |ys| == 0 then false
    else if xs[0] == ys[0] then IsSubsequence(xs[1..], ys[1..])
    else IsSubsequence(xs, ys[1..])
  }

  lemma {:induction false} SubsequenceSkip<T>(xs: seq<T>, ys: seq<T>)
    requires |ys| > 0 && IsSubsequence(xs, ys[1..])
    ensures IsSubsequence(xs, ys)
    decreases |ys|, 0
  {
    if |xs| > 0 && xs[0] == ys[0] {
      // Matching ys[0] first is never worse than skipping it.
      SubsequenceTail(xs, ys[1..]);
    }
  }

  lemma {:induction false} SubsequenceTail<T>(xs: seq<T>, ys: seq<T>)
    requires |xs| > 0 && IsSubsequence(xs, ys)
    ensures IsSubsequence(xs[1..], ys)
    decreases |ys|, 1
  {
    if xs[0] == ys[0] {
      SubsequenceSkip(xs[1..], ys);
    } else {
      SubsequenceTail(xs, ys[1..]);
      SubsequenceSkip(xs[1..], ys);
    }
  }

  /** Filtering keeps the rows in their original relative order. */
  lemma {:induction false} FilterIsSubsequence<T(!new)>(xs: seq<T>, p: T -> bool)
    ensures IsSubsequence(Filter(xs, p), xs)
    decreases |xs|
  {
    if |xs| > 0 {
      FilterIsSubsequence(xs[1..], p);
      var r := Filter(xs, p);
      if p(xs[0]) {
        assert r == [xs[0]] + Filter(xs[1..], p);
        assert r[1..] == Filter(xs[1..], p);
      } else {
        assert r == Filter(xs[1..], p);
        SubsequenceSkip(r, xs);
      }
    }
  }

  /** `head(n)` of pandas: the first n rows; a negative n drops the last -n rows. */
  function Head<T>(xs: seq<T>, n: int): (r: seq<T>)
    ensures n >= 0 ==> |r| == (if n < |xs| then n else |xs|)
    ensures n < 0 ==> |r| == (if -n < |xs| then |xs| + n else 0)
    ensures r == xs[..|r|]
  {
    if n >= 0 then (if n < |xs| then xs[..n] else xs)
    else if -n < |xs| then xs[..|xs| + n]
    else []
  }

  /** A subset is no larger, and one of the same size is the whole set. */
  lemma SubsetCard<T>(a: set<T>, b: set<T>)
    requires a <= b
    ensures |a| <= |b|
    ensures |a| == |b| ==> a == b
  {
    assert b == a + (b - a);
    assert a * (b - a) == {};
  }

  /** A Python slice bound: negative counts from the end, then clamped to 0..len. */
  function PyBound(k: int, len: nat): (b: nat)
    ensures b <= len
  {
    if k < 0 then (if len + k < 0 then 0 else len + k)
    else if k > len then len
    else k
  }

  /** `xs[lo:hi]` with Python's rules for negative and out-of-range bounds. */
  function PySlice<T>(xs: seq<T>, lo: int, hi: int): (r: seq<T>)
    ensures var a := PyBound(lo, |xs|); var b := PyBound(hi, |xs|);
      r == (if a <= b then xs[a..b] else [])
  {
    var a := PyBound(lo, |xs|);
    var b := PyBound(hi, |xs|);
    if a <= b then xs[a..b] else []
  }
}
