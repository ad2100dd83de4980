/**
 * Key-wise arithmetic means, as computed by `sum(m[key] for m in metrics) /
 * len(metrics)`. A metric record is reduced to one number by a projection `f`
 * (the lookup of one key), so the same sum and mean serve every key.
 */
module Averaging {

  /** Sum of `f` over `xs`, left to right. */
  function SumOf<T>(xs: seq<T>, f: T -> real): real
  {
    if xs == [] then 0.0 else f(xs[0]) + SumOf(xs[1..], f)
  }

  /** Arithmetic mean of `f` over a non-empty `xs`. */
  function Mean<T>(xs: seq<T>, f: T -> real): real
    requires xs != []
  {
    SumOf(xs, f) / |xs| as real
  }

  /** Summation distributes over concatenation. */
  lemma {:induction false} SumOfAppend<T>(xs: seq<T>, ys: seq<T>, f: T -> real)
    ensures SumOf(xs + ys, f) == SumOf(xs, f) + SumOf(ys, f)
  {
    if xs == [] {
      assert xs + ys == ys;
    } else {
      assert (xs + ys)[1..] == xs[1..] + ys;
      SumOfAppend(xs[1..], ys, f);
    }
  }

  /** Taking out the summand at `j` leaves the sum of the rest. */
  lemma {:induction false} SumOfRemove<T>(ys: seq<T>, j: nat, f: T -> real)
    requires j < |ys|
    ensures SumOf(ys, f) == f(ys[j]) + SumOf(ys[..j] + ys[j + 1..], f)
  {
    if j == 0 {
      assert ys[..0] + ys[1..] == ys[1..];
    } else {
      var rest := ys[..j] + ys[j + 1..];
      assert rest[0] == ys[0];
      assert rest[1..] == ys[1..][..j - 1] + ys[1..][j..];
      SumOfRemove(ys[1..], j - 1, f);
    }
  }

  /**
   * Matching the head of `xs` with an equal element `ys[j]` leaves two
   * remainders with the same elements.
   */
  lemma PermutationTail<T>(xs: seq<T>, ys: seq<T>, j: nat)
    requires xs != [] && j < |ys| && ys[j] == xs[0]
    requires multiset(xs) == multiset(ys)
    ensures multiset(xs[1..]) == multiset(ys[..j] + ys[j + 1..])
  {
    assert xs == [xs[0]] + xs[1..];
    assert ys == ys[..j] + [ys[j]] + ys[j + 1..];
    calc {
      multiset(xs[1..]);
      multiset(xs) - multiset{xs[0]};
      multiset(ys) - multiset{ys[j]};
      multiset(ys[..j] + ys[j + 1..]);
    }
  }

  /** The sum does not depend on the order of the summands. */
  lemma {:induction false} SumOfPermutation<T>(xs: seq<T>, ys: seq<T>, f: T -> real)
    requires multiset(xs) == multiset(ys)
    ensures SumOf(xs, f) == SumOf(ys, f)
  {
    if xs == [] {
      assert |ys| == |multiset(ys)| == 0;
    } else {
      assert xs[0] in multiset(ys);
      var j :| 0 <= j < |ys| && ys[j] == xs[0];
      PermutationTail(xs, ys, j);
      SumOfPermutation(xs[1..], ys[..j] + ys[j + 1..], f);
      SumOfRemove(ys, j, f);
    }
  }

  /** Summands within [lo, hi] give a sum within [n * lo, n * hi]. */
  lemma {:induction false} SumOfBounds<T>(xs: seq<T>, f: T -> real, lo: real, hi: real)
    requires forall x <- xs :: lo <= f(x) <= hi
    ensures |xs| as real * lo <= SumOf(xs, f) <= |xs| as real * hi
  {
    if xs != [] {
      assert xs[0] in xs;
      SumOfBounds(xs[1..], f, lo, hi);
      var n := |xs[1..]| as real;
      assert |xs| as real * lo == n * lo + lo && |xs| as real * hi == n * hi + hi;
    }
  }

  /** A mean of values within [lo, hi] lies within [lo, hi]. */
  lemma MeanBounds<T>(xs: seq<T>, f: T -> real, lo: real, hi: real)
    requires xs != []
    requires forall x <- xs :: lo <= f(x) <= hi
    ensures lo <= Mean(xs, f) <= hi
  {
    var n := |xs| as real;
    SumOfBounds(xs, f, lo, hi);
    assert Mean(xs, f) * n == SumOf(xs, f);
  }

  /** The mean does not depend on the order of the records. */
  lemma MeanPermutation<T>(xs: seq<T>, ys: seq<T>, f: T -> real)
    requires xs != []
    requires multiset(xs) == multiset(ys)
    ensures ys != []
    ensures Mean(xs, f) == Mean(ys, f)
  {
    assert |xs| == |multiset(xs)| == |multiset(ys)| == |ys|;
    SumOfPermutation(xs, ys, f);
  }
}
