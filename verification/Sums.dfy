/** Sums of a weight over a sequence. A count is a sum of zeros and ones. */
module Sums {
  function Sum<T>(xs: seq<T>, weight: T -> nat): nat
  {
    if xs == [] then 0 else Sum(xs[..|xs| - 1], weight) + weight(xs[|xs| - 1])
  }

  lemma SumAppend<T>(xs: seq<T>, x: T, weight: T -> nat)
    ensures Sum(xs + [x], weight) == Sum(xs, weight) + weight(x)
  {
    assert (xs + [x])[..|xs|] == xs;
  }

  lemma {:induction false} SumConcat<T>(xs: seq<T>, ys: seq<T>, weight: T -> nat)
    ensures Sum(xs + ys, weight) == Sum(xs, weight) + Sum(ys, weight)
  {
    if ys == [] {
      assert xs + ys == xs;
    } else {
      var front := ys[..|ys| - 1];
      SumConcat(xs, front, weight);
      assert xs + ys == (xs + front) + [ys[|ys| - 1]];
      SumAppend(xs + front, ys[|ys| - 1], weight);
    }
  }

  lemma SumSplit<T>(xs: seq<T>, lo: nat, hi: nat, weight: T -> nat)
    requires lo <= hi <= |xs|
    ensures Sum(xs[..hi], weight) == Sum(xs[..lo], weight) + Sum(xs[lo..hi], weight)
  {
    assert xs[..hi] == xs[..lo] + xs[lo..hi];
    SumConcat(xs[..lo], xs[lo..hi], weight);
  }

  lemma {:induction false} SumLeq<T>(xs: seq<T>, light: T -> nat, heavy: T -> nat)
    requires forall x :: x in xs ==> light(x) <= heavy(x)
    ensures Sum(xs, light) <= Sum(xs, heavy)
  {
    if xs != [] {
      SumLeq(xs[..|xs| - 1], light, heavy);
    }
  }

  lemma SumSame<T>(xs: seq<T>, one: T -> nat, other: T -> nat)
    requires forall x :: x in xs ==> one(x) == other(x)
    ensures Sum(xs, one) == Sum(xs, other)
  {
    SumLeq(xs, one, other);
    SumLeq(xs, other, one);
  }

  lemma {:induction false} SumZero<T>(xs: seq<T>, weight: T -> nat)
    requires forall x :: x in xs ==> weight(x) == 0
    ensures Sum(xs, weight) == 0
  {
    if xs != [] {
      SumZero(xs[..|xs| - 1], weight);
    }
  }

  lemma {:induction false} SumPlus<T>(xs: seq<T>, left: T -> nat, right: T -> nat, both: T -> nat)
    requires forall x :: x in xs ==> both(x) == left(x) + right(x)
    ensures Sum(xs, both) == Sum(xs, left) + Sum(xs, right)
  {
    if xs != [] {
      SumPlus(xs[..|xs| - 1], left, right, both);
    }
  }

  /** Replacing one element exchanges its weight. */
  lemma SumUpdate<T>(xs: seq<T>, i: nat, x: T, weight: T -> nat)
    requires i < |xs|
    ensures Sum(xs[i := x], weight) + weight(xs[i]) == Sum(xs, weight) + weight(x)
  {
    assert xs == xs[..i] + [xs[i]] + xs[i + 1..];
    assert xs[i := x] == xs[..i] + [x] + xs[i + 1..];
    SumConcat(xs[..i] + [xs[i]], xs[i + 1..], weight);
    SumConcat(xs[..i] + [x], xs[i + 1..], weight);
    SumAppend(xs[..i], xs[i], weight);
    SumAppend(xs[..i], x, weight);
  }

  /** No single element weighs more than the whole. */
  lemma {:induction false} SumAtLeast<T>(xs: seq<T>, i: nat, weight: T -> nat)
    requires i < |xs|
    ensures weight(xs[i]) <= Sum(xs, weight)
  {
    if i < |xs| - 1 {
      SumAtLeast(xs[..|xs| - 1], i, weight);
    }
  }

  /** When every element weighs at most one, the sum is at most the length. */
  lemma {:induction false} SumAtMostLength<T>(xs: seq<T>, weight: T -> nat)
    requires forall x :: x in xs ==> weight(x) <= 1
    ensures Sum(xs, weight) <= |xs|
  {
    if xs != [] {
      SumAtMostLength(xs[..|xs| - 1], weight);
    }
  }
}
