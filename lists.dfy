/** `Array.prototype.filter` and `reduce`-style sums, with what they preserve. */
module Lists {

  /** `xs.filter(p)`: the elements satisfying `p`, in their original order. */
  function Filter<T>(p: T -> bool, xs: seq<T>): seq<T>
    decreases |xs|
  {
    if |xs| == 0 then [] else (if p(xs[0]) then [xs[0]] else []) + Filter(p, xs[1..])
  }

  /** `ys` is `xs` with some elements deleted, the rest kept in order. */
  ghost predicate IsSubsequence<T>(ys: seq<T>, xs: seq<T>)
    decreases |xs|
  {
    |ys| == 0
    || (|xs| > 0 && ((ys[0] == xs[0] && IsSubsequence(ys[1..], xs[1..])) || IsSubsequence(ys, xs[1..])))
  }

  /**
   * A filter keeps exactly the elements satisfying the predicate, each as often as it occurs,
   * and keeps them in their original order.
   */
  lemma FilterSpec<T>(p: T -> bool, xs: seq<T>)
    ensures IsSubsequence(Filter(p, xs), xs)
    ensures forall k | 0 <= k < |Filter(p, xs)| :: p(Filter(p, xs)[k])
    ensures forall x :: multiset(Filter(p, xs))[x] == if p(x) then multiset(xs)[x] else 0
  {
    FilterOrder(p, xs);
    FilterHolds(p, xs);
    FilterCounts(p, xs);
  }

  lemma {:induction false} FilterOrder<T>(p: T -> bool, xs: seq<T>)
    ensures IsSubsequence(Filter(p, xs), xs)
    decreases |xs|
  {
    if |xs| > 0 {
      FilterOrder(p, xs[1..]);
      var rest := Filter(p, xs[1..]);
      if p(xs[0]) {
        assert Filter(p, xs) == [xs[0]] + rest;
        assert Filter(p, xs)[1..] == rest;
      } else {
        assert Filter(p, xs) == rest;
      }
    }
  }

  lemma {:induction false} FilterHolds<T>(p: T -> bool, xs: seq<T>)
    ensures forall k | 0 <= k < |Filter(p, xs)| :: p(Filter(p, xs)[k])
    decreases |xs|
  {
    if |xs| > 0 {
      FilterHolds(p, xs[1..]);
      var rest := Filter(p, xs[1..]);
      if p(xs[0]) {
        assert Filter(p, xs) == [xs[0]] + rest;
        forall k | 1 <= k < |Filter(p, xs)| ensures p(Filter(p, xs)[k]) {
          assert Filter(p, xs)[k] == rest[k - 1];
        }
      } else {
        assert Filter(p, xs) == rest;
      }
    }
  }

  lemma {:induction false} FilterCounts<T>(p: T -> bool, xs: seq<T>)
    ensures forall x :: multiset(Filter(p, xs))[x] == if p(x) then multiset(xs)[x] else 0
    decreases |xs|
  {
    if |xs| > 0 {
      FilterCounts(p, xs[1..]);
      assert xs == [xs[0]] + xs[1..];
      assert multiset(xs) == multiset([xs[0]]) + multiset(xs[1..]);
      var rest := Filter(p, xs[1..]);
      if p(xs[0]) {
        assert Filter(p, xs) == [xs[0]] + rest;
        assert multiset(Filter(p, xs)) == multiset([xs[0]]) + multiset(rest);
      } else {
        assert Filter(p, xs) == rest;
      }
    }
  }

  /** An element is kept exactly when it occurs in the list and satisfies the predicate. */
  lemma {:induction false} FilterMember<T>(p: T -> bool, xs: seq<T>, x: T)
    ensures x in Filter(p, xs) <==> x in xs && p(x)
    decreases |xs|
  {
    if |xs| > 0 {
      FilterMember(p, xs[1..], x);
      assert xs == [xs[0]] + xs[1..];
    }
  }

  /** When every element satisfies the predicate, the filter keeps the whole list. */
  lemma {:induction false} FilterAll<T>(p: T -> bool, xs: seq<T>)
    requires forall k | 0 <= k < |xs| :: p(xs[k])
    ensures Filter(p, xs) == xs
    decreases |xs|
  {
    if |xs| > 0 {
      FilterAll(p, xs[1..]);
      assert xs == [xs[0]] + xs[1..];
    }
  }

  /** `xs.map(f)`. */
  function MapSeq<T, U>(f: T -> U, xs: seq<T>): (ys: seq<U>)
    ensures |ys| == |xs|
    ensures forall k | 0 <= k < |xs| :: ys[k] == f(xs[k])
  {
    seq(|xs|, k requires 0 <= k < |xs| => f(xs[k]))
  }

  /** `xs.reduce((sum, x) => sum + f(x), 0)`. */
  function SumOf<T>(xs: seq<T>, f: T -> nat): nat
    decreases |xs|
  {
    if |xs| == 0 then 0 else f(xs[0]) + SumOf(xs[1..], f)
  }

  /** Filtering a concatenation filters each side. */
  lemma {:induction false} FilterConcat<T>(p: T -> bool, xs: seq<T>, ys: seq<T>)
    ensures Filter(p, xs + ys) == Filter(p, xs) + Filter(p, ys)
    decreases |xs|
  {
    if |xs| > 0 {
      FilterConcat(p, xs[1..], ys);
      assert (xs + ys)[1..] == xs[1..] + ys;
    } else {
      assert xs + ys == ys;
    }
  }

  /** The sum over a concatenation is the sum of the sums. */
  lemma {:induction false} SumConcat<T>(xs: seq<T>, ys: seq<T>, f: T -> nat)
    ensures SumOf(xs + ys, f) == SumOf(xs, f) + SumOf(ys, f)
    decreases |xs|
  {
    if |xs| > 0 {
      SumConcat(xs[1..], ys, f);
      assert (xs + ys)[1..] == xs[1..] + ys;
    } else {
      assert xs + ys == ys;
    }
  }

  /** The sum over a filter, one element at a time. */
  lemma SumFilterStep<T>(p: T -> bool, xs: seq<T>, f: T -> nat)
    requires |xs| > 0
    ensures SumOf(Filter(p, xs), f) == (if p(xs[0]) then f(xs[0]) else 0) + SumOf(Filter(p, xs[1..]), f)
  {
    var rest := Filter(p, xs[1..]);
    if p(xs[0]) {
      assert Filter(p, xs) == [xs[0]] + rest;
      assert ([xs[0]] + rest)[1..] == rest;
    } else {
      assert Filter(p, xs) == rest;
    }
  }

  /** A filter is never longer than its input. */
  lemma {:induction false} FilterLength<T>(p: T -> bool, xs: seq<T>)
    ensures |Filter(p, xs)| <= |xs|
    decreases |xs|
  {
    if |xs| > 0 {
      FilterLength(p, xs[1..]);
    }
  }
}
