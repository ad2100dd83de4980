/**
 * nDCG never exceeds 1 for a ranking without repeated ids, provided the
 * relevancies are non-negative and the discount `log2(1 + k)` does not
 * decrease with the rank k. The DCG of such a ranking is bounded by the ideal
 * DCG in two steps:
 *
 * - every prefix of its gains sums to at most the same prefix of the sorted
 *   relevancies, because distinct ids read distinct relevancies;
 * - a sequence whose prefix sums are dominated in this way has the smaller
 *   discounted sum, because the discount weights do not increase with rank
 *   (summation by parts).
 */
module NdcgBound {
  import opened Sorting
  import opened Scoring
  import opened Averaging

  /** `log2` does not decrease above 1, so later ranks are discounted more. */
  ghost predicate MonotoneLog(log2: real -> real)
  {
    forall x, y :: 1.0 < x <= y ==> log2(x) <= log2(y)
  }

  /**
   * Plain sum of the values, taken prefix by prefix like the DCG walk, so that
   * the proofs below unfold it at the same end as `DiscountedSum`.
   * `SumIsSumOf` shows it is `Averaging.SumOf` of the values themselves.
   */
  function Sum(values: seq<real>): real
  {
    if values == [] then 0.0 else Sum(values[..|values| - 1]) + values[|values| - 1]
  }

  /** `Sum` is the sum of the values as the aggregator takes it, from the front. */
  lemma {:induction false} SumIsSumOf(values: seq<real>)
    ensures Sum(values) == SumOf(values, x => x)
  {
    if values != [] {
      var n := |values|;
      SumIsSumOf(values[..n - 1]);
      assert values == values[..n - 1] + [values[n - 1]];
      SumOfAppend(values[..n - 1], [values[n - 1]], x => x);
      assert [values[n - 1]][1..] == [];
    }
  }

  /** Summation distributes over concatenation. */
  lemma {:induction false} SumAppend(a: seq<real>, b: seq<real>)
    ensures Sum(a + b) == Sum(a) + Sum(b)
  {
    if b == [] {
      assert a + b == a;
    } else {
      assert (a + b)[..|a + b| - 1] == a + b[..|b| - 1];
      SumAppend(a, b[..|b| - 1]);
    }
  }

  // ---------------------------------------------------------------------------
  // Summation by parts
  // ---------------------------------------------------------------------------

  /** Every prefix of `g` sums to at most the same prefix of `s`. */
  ghost predicate PrefixDominated(g: seq<real>, s: seq<real>)
  {
    |g| == |s| && forall m :: 0 <= m <= |g| ==> Sum(g[..m]) <= Sum(s[..m])
  }

  /** Division by a positive number distributes over addition. */
  lemma DivideSum(a: real, b: real, c: real)
    requires c > 0.0
    ensures (a + b) / c == a / c + b / c
  {
  }

  /** Division by a positive number keeps the order of the numerators. */
  lemma DivideMonotone(a: real, b: real, c: real)
    requires c > 0.0 && a <= b
    ensures a / c <= b / c
  {
  }

  /** A non-negative amount divided by a larger positive number is smaller. */
  lemma DivideByLarger(e: real, c1: real, c2: real)
    requires e >= 0.0 && 0.0 < c1 <= c2
    ensures e / c2 <= e / c1
  {
    assert e / c2 * c2 == e == e / c1 * c1;
    assert e / c2 * c2 <= e / c2 * c1 + e / c2 * (c2 - c1);
  }

  /** A dominated prefix stays dominated. */
  lemma DominatedPrefix(g: seq<real>, s: seq<real>, k: nat)
    requires PrefixDominated(g, s) && k <= |g|
    ensures PrefixDominated(g[..k], s[..k])
  {
    forall m | 0 <= m <= k
      ensures Sum(g[..k][..m]) <= Sum(s[..k][..m])
    {
      assert g[..k][..m] == g[..m] && s[..k][..m] == s[..m];
    }
  }

  /** `g` without its last value, with `e` added to the new last value. */
  function MoveUp(g: seq<real>, e: real): (r: seq<real>)
    requires |g| >= 2
    ensures |r| == |g| - 1
  {
    g[..|g| - 2] + [g[|g| - 2] + e]
  }

  /**
   * Moving the excess `e` of the last value of `g` over `last` one rank up
   * keeps `g` dominated by `s` without its last value.
   */
  lemma MoveUpDominated(g: seq<real>, s: seq<real>)
    requires PrefixDominated(g, s) && |g| >= 2
    ensures PrefixDominated(MoveUp(g, g[|g| - 1] - s[|s| - 1]), s[..|s| - 1])
  {
    var n := |g|;
    var e := g[n - 1] - s[n - 1];
    var g2 := MoveUp(g, e);
    assert g[..n] == g && s[..n] == s;
    assert g[..n - 1] == g[..n - 2] + [g[n - 2]];
    assert g2[..n - 2] == g[..n - 2];
    forall m | 0 <= m <= n - 1
      ensures Sum(g2[..m]) <= Sum(s[..n - 1][..m])
    {
      assert s[..n - 1][..m] == s[..m];
      if m < n - 1 {
        assert g2[..m] == g[..m];
      } else {
        assert g2[..m] == g2;
      }
    }
  }

  /**
   * Discounting the excess `e` at rank n instead of n - 1 can only lower the
   * discounted sum.
   */
  lemma MoveUpDiscountedSum(g: seq<real>, last: real, log2: real -> real)
    requires PositiveLog(log2) && MonotoneLog(log2)
    requires |g| >= 2 && g[|g| - 1] >= last
    ensures DiscountedSum(g, log2)
         <= DiscountedSum(MoveUp(g, g[|g| - 1] - last), log2) + last / log2(1.0 + |g| as real)
  {
    var n := |g|;
    var e := g[n - 1] - last;
    var g2 := MoveUp(g, e);
    var dn := log2(1.0 + n as real);
    var dm := log2(1.0 + (n - 1) as real);
    assert g[..n - 1][..n - 2] == g[..n - 2] == g2[..n - 2];
    assert 0.0 < dm <= dn;
    DivideSum(last, e, dn);
    DivideSum(g[n - 2], e, dm);
    DivideByLarger(e, dm, dn);
  }

  /** The first value of `g` is at most that of `s`, so an excess is not at rank 1. */
  lemma ExcessNotFirst(g: seq<real>, s: seq<real>)
    requires PrefixDominated(g, s) && g != [] && g[|g| - 1] > s[|s| - 1]
    ensures |g| >= 2
  {
    assert g[..1] == [g[0]] && s[..1] == [s[0]];
    assert [g[0]][..0] == [] && [s[0]][..0] == [];
  }

  /**
   * Summation by parts: when every prefix of `g` sums to at most the same
   * prefix of `s`, and the discount does not decrease with rank, the
   * discounted sum of `g` is at most that of `s`. An excess of `g` over `s`
   * at the last rank is moved one rank up, where it is discounted less.
   */
  lemma {:induction false} DominatedDiscountedSum(g: seq<real>, s: seq<real>, log2: real -> real)
    requires PositiveLog(log2) && MonotoneLog(log2)
    requires PrefixDominated(g, s)
    ensures DiscountedSum(g, log2) <= DiscountedSum(s, log2)
    decreases |g|
  {
    if g != [] {
      var n := |g|;
      if g[n - 1] <= s[n - 1] {
        assert DiscountedSum(g[..n - 1], log2) <= DiscountedSum(s[..n - 1], log2) by {
          DominatedPrefix(g, s, n - 1);
          DominatedDiscountedSum(g[..n - 1], s[..n - 1], log2);
        }
        DivideMonotone(g[n - 1], s[n - 1], log2(1.0 + n as real));
      } else {
        ExcessNotFirst(g, s);
        var moved := MoveUp(g, g[n - 1] - s[n - 1]);
        assert DiscountedSum(moved, log2) <= DiscountedSum(s[..n - 1], log2) by {
          MoveUpDominated(g, s);
          DominatedDiscountedSum(moved, s[..n - 1], log2);
        }
        MoveUpDiscountedSum(g, s[n - 1], log2);
      }
    }
  }

  // ---------------------------------------------------------------------------
  // The largest values have the largest sum
  // ---------------------------------------------------------------------------

  /** Taking out the value at `j` leaves the sum of the rest. */
  lemma SumRemove(x: seq<real>, j: nat)
    requires j < |x|
    ensures Sum(x) == x[j] + Sum(x[..j] + x[j + 1..])
  {
    var back := x[j + 1..];
    assert x == x[..j + 1] + back;
    SumAppend(x[..j + 1], back);
    SumAppend(x[..j], back);
    SumPrefixLast(x, j + 1);
  }

  /** Taking out the value at `j` takes one copy of it out of the multiset. */
  lemma MultisetRemove(x: seq<real>, j: nat)
    requires j < |x|
    ensures multiset(x[..j] + x[j + 1..]) == multiset(x) - multiset{x[j]}
  {
    assert x == x[..j] + [x[j]] + x[j + 1..];
  }

  /** Taking one occurrence of `v` out of `x` leaves `rest`, which sums to the rest. */
  lemma RemoveOne(x: seq<real>, v: real) returns (rest: seq<real>)
    requires v in multiset(x)
    ensures |rest| == |x| - 1
    ensures multiset(rest) == multiset(x) - multiset{v}
    ensures Sum(x) == v + Sum(rest)
  {
    var j :| 0 <= j < |x| && x[j] == v;
    rest := x[..j] + x[j + 1..];
    MultisetRemove(x, j);
    SumRemove(x, j);
  }

  /** The first `m` values of `s` are the first `m - 1` and one more. */
  lemma MultisetPrefixLast(s: seq<real>, m: nat)
    requires 0 < m <= |s|
    ensures multiset(s[..m]) == multiset(s[..m - 1]) + multiset{s[m - 1]}
  {
    assert s[..m] == s[..m - 1] + [s[m - 1]];
  }

  /** A prefix of a prefix is a prefix. */
  lemma PrefixOfPrefix(s: seq<real>, m: nat, k: nat)
    requires k <= m <= |s|
    ensures s[..m][..k] == s[..k]
  {
  }

  /** A non-empty prefix sums to the prefix one shorter plus its last value. */
  lemma SumPrefixLast(s: seq<real>, k: nat)
    requires 0 < k <= |s|
    ensures Sum(s[..k]) == Sum(s[..k - 1]) + s[k - 1]
  {
    PrefixOfPrefix(s, k, k - 1);
  }

  /**
   * Values drawn from the first `m` values of `s` without the `m`-th are
   * drawn from the first `m - 1`.
   */
  lemma SubMultisetPrefix(x: seq<real>, s: seq<real>, m: nat)
    requires 0 < m <= |s| && multiset(x) <= multiset(s[..m])
    requires s[m - 1] !in multiset(x)
    ensures multiset(x) <= multiset(s[..m - 1])
  {
    MultisetPrefixLast(s, m);
  }

  /**
   * Taking one occurrence of the `m`-th value of `s` out of values drawn from
   * the first `m` values of `s` leaves values drawn from the first `m - 1`.
   */
  lemma TakeOutLast(x: seq<real>, s: seq<real>, m: nat) returns (rest: seq<real>)
    requires 0 < m <= |s| && multiset(x) <= multiset(s[..m])
    requires s[m - 1] in multiset(x)
    ensures |rest| == |x| - 1
    ensures multiset(rest) <= multiset(s[..m - 1])
    ensures Sum(x) == s[m - 1] + Sum(rest)
  {
    rest := RemoveOne(x, s[m - 1]);
    MultisetPrefixLast(s, m);
  }

  /** The step that adds back the value `v` taken out of `x`. */
  lemma TopSumStep(x: seq<real>, s: seq<real>, rest: seq<real>, v: real)
    requires 0 < |x| <= |s| && |rest| == |x| - 1
    requires Sum(x) == v + Sum(rest) && v <= s[|x| - 1]
    requires Sum(rest) <= Sum(s[..|rest|])
    ensures Sum(x) <= Sum(s[..|x|])
  {
    SumPrefixLast(s, |x|);
  }

  /**
   * Values drawn from the first `m` values of a non-increasing sequence `s`,
   * each at most as often as it occurs there, sum to at most the same number
   * of leading values of `s`. The induction takes the last of the `m` values,
   * the smallest, out of `x` when it is there.
   */
  lemma {:induction false} TopSumBoundUpTo(x: seq<real>, s: seq<real>, m: nat)
    requires Descending(s)
    requires m <= |s| && multiset(x) <= multiset(s[..m])
    ensures |x| <= m
    ensures Sum(x) <= Sum(s[..|x|])
    decreases m
  {
    if m > 0 {
      if s[m - 1] in multiset(x) {
        var rest := TakeOutLast(x, s, m);
        TopSumBoundUpTo(rest, s, m - 1);
        if |x| - 1 < m - 1 {
          DescendingPairs(s, |x| - 1, m - 1);
        }
        TopSumStep(x, s, rest, s[m - 1]);
      } else {
        SubMultisetPrefix(x, s, m);
        TopSumBoundUpTo(x, s, m - 1);
      }
    }
  }

  /**
   * Values drawn from a non-increasing sequence `s`, each at most as often as
   * it occurs there, sum to at most the same number of leading values of `s`.
   */
  lemma TopSumBound(x: seq<real>, s: seq<real>)
    requires Descending(s)
    requires multiset(x) <= multiset(s)
    ensures |x| <= |s|
    ensures Sum(x) <= Sum(s[..|x|])
  {
    assert s[..|s|] == s;
    TopSumBoundUpTo(x, s, |s|);
  }

  // ---------------------------------------------------------------------------
  // The gains of a ranking without repeats are drawn from the relevancies
  // ---------------------------------------------------------------------------

  /** The ground-truth positions `list.index` reads at the hit ranks, in rank order. */
  function HitPositions(retrieved: seq<ChunkId>, groundTruth: seq<ChunkId>): (p: seq<nat>)
    ensures |p| <= |retrieved|
    ensures forall k :: 0 <= k < |p| ==> p[k] < |groundTruth|
  {
    if retrieved == [] then []
    else
      var n := |retrieved|;
      var last := retrieved[n - 1];
      HitPositions(retrieved[..n - 1], groundTruth)
        + (if last in groundTruth then [IndexOf(groundTruth, last)] else [])
  }

  /** The values of `s` at the given positions, in the order of the positions. */
  function Pick(s: seq<real>, positions: seq<nat>): (r: seq<real>)
    requires forall k :: 0 <= k < |positions| ==> positions[k] < |s|
    ensures |r| == |positions|
  {
    if positions == [] then []
    else
      var n := |positions|;
      Pick(s, positions[..n - 1]) + [s[positions[n - 1]]]
  }

  /** The values of `s` whose positions are listed, in the order of `s`. */
  function Chosen(s: seq<real>, positions: seq<nat>): seq<real>
  {
    if s == [] then []
    else
      var n := |s|;
      Chosen(s[..n - 1], positions) + (if n - 1 in positions then [s[n - 1]] else [])
  }

  /** Misses add 0, so the gains sum to the relevancies read at the hit positions. */
  lemma {:induction false} SumGainsIsSumHits(retrieved: seq<ChunkId>, groundTruth: seq<ChunkId>, relevancies: seq<real>)
    requires |groundTruth| <= |relevancies|
    ensures Sum(Gains(retrieved, groundTruth, relevancies)) == Sum(Pick(relevancies, HitPositions(retrieved, groundTruth)))
  {
    if retrieved != [] {
      var n := |retrieved|;
      var init := retrieved[..n - 1];
      var p := HitPositions(init, groundTruth);
      var h := Pick(relevancies, p);
      SumGainsIsSumHits(init, groundTruth, relevancies);
      assert Gains(retrieved, groundTruth, relevancies)[..n - 1] == Gains(init, groundTruth, relevancies);
      if retrieved[n - 1] in groundTruth {
        var i := IndexOf(groundTruth, retrieved[n - 1]);
        assert (p + [i])[..|p|] == p;
        assert (h + [relevancies[i]])[..|h|] == h;
      } else {
        assert p + [] == p;
      }
    }
  }

  /** Every hit position holds a retrieved id. */
  lemma {:induction false} HitPositionsRetrieved(retrieved: seq<ChunkId>, groundTruth: seq<ChunkId>)
    ensures forall i <- HitPositions(retrieved, groundTruth) :: groundTruth[i] in retrieved
  {
    if retrieved != [] {
      var init := retrieved[..|retrieved| - 1];
      HitPositionsRetrieved(init, groundTruth);
      assert forall x <- init :: x in retrieved;
    }
  }

  /** The step of `HitPositionsDistinct`: a new id reads a new position. */
  lemma HitPositionsDistinctStep(retrieved: seq<ChunkId>, groundTruth: seq<ChunkId>)
    requires retrieved != [] && retrieved[|retrieved| - 1] !in retrieved[..|retrieved| - 1]
    requires Distinct(HitPositions(retrieved[..|retrieved| - 1], groundTruth))
    ensures Distinct(HitPositions(retrieved, groundTruth))
  {
    var n := |retrieved|;
    var last := retrieved[n - 1];
    var p := HitPositions(retrieved[..n - 1], groundTruth);
    if last in groundTruth {
      var i := IndexOf(groundTruth, last);
      HitPositionsRetrieved(retrieved[..n - 1], groundTruth);
      assert i !in p;
      assert HitPositions(retrieved, groundTruth) == p + [i];
    } else {
      assert HitPositions(retrieved, groundTruth) == p + [];
    }
  }

  /** Without repeated retrieved ids, no ground-truth position is read twice. */
  lemma {:induction false} HitPositionsDistinct(retrieved: seq<ChunkId>, groundTruth: seq<ChunkId>)
    requires Distinct(retrieved)
    ensures Distinct(HitPositions(retrieved, groundTruth))
  {
    if retrieved != [] {
      var init := retrieved[..|retrieved| - 1];
      assert Distinct(init);
      assert retrieved[|retrieved| - 1] !in init;
      HitPositionsDistinct(init, groundTruth);
      HitPositionsDistinctStep(retrieved, groundTruth);
    }
  }

  /** Listing a position at or beyond the end of `s` chooses nothing more. */
  lemma {:induction false} ChosenBelow(s: seq<real>, positions: seq<nat>, i: nat)
    requires |s| <= i
    ensures Chosen(s, positions + [i]) == Chosen(s, positions)
  {
    if s != [] {
      ChosenBelow(s[..|s| - 1], positions, i);
    }
  }

  /** Listing the last position of `s` as well adds the last value. */
  lemma ChosenInsertLast(s: seq<real>, positions: seq<nat>)
    requires s != [] && |s| - 1 !in positions
    ensures multiset(Chosen(s, positions + [|s| - 1])) == multiset(Chosen(s, positions)) + multiset{s[|s| - 1]}
  {
    var n := |s|;
    var before := Chosen(s[..n - 1], positions);
    ChosenBelow(s[..n - 1], positions, n - 1);
    assert Chosen(s, positions + [n - 1]) == before + [s[n - 1]];
    assert Chosen(s, positions) == before + [];
  }

  /**
   * Listing one more position below the last: the last value is chosen in
   * both or in neither, so what holds without it carries over.
   */
  lemma ChosenInsertStep(s: seq<real>, positions: seq<nat>, i: nat)
    requires i < |s| - 1
    requires multiset(Chosen(s[..|s| - 1], positions + [i]))
          == multiset(Chosen(s[..|s| - 1], positions)) + multiset{s[i]}
    ensures multiset(Chosen(s, positions + [i])) == multiset(Chosen(s, positions)) + multiset{s[i]}
  {
    var n := |s|;
    var tail := if n - 1 in positions then [s[n - 1]] else [];
    assert Chosen(s, positions + [i]) == Chosen(s[..n - 1], positions + [i]) + tail;
    assert Chosen(s, positions) == Chosen(s[..n - 1], positions) + tail;
  }

  /** Listing one more position adds its value to the multiset of chosen values. */
  lemma {:induction false} ChosenInsert(s: seq<real>, positions: seq<nat>, i: nat)
    requires i < |s| && i !in positions
    ensures multiset(Chosen(s, positions + [i])) == multiset(Chosen(s, positions)) + multiset{s[i]}
  {
    if i < |s| - 1 {
      ChosenInsert(s[..|s| - 1], positions, i);
      ChosenInsertStep(s, positions, i);
    } else {
      ChosenInsertLast(s, positions);
    }
  }

  /** The chosen values are drawn from `s`. */
  lemma {:induction false} ChosenSubMultiset(s: seq<real>, positions: seq<nat>)
    ensures multiset(Chosen(s, positions)) <= multiset(s)
  {
    if s != [] {
      var n := |s|;
      ChosenSubMultiset(s[..n - 1], positions);
      assert s == s[..n - 1] + [s[n - 1]];
    }
  }

  /** Listing no position chooses nothing. */
  lemma {:induction false} ChosenNone(s: seq<real>)
    ensures Chosen(s, []) == []
  {
    if s != [] {
      ChosenNone(s[..|s| - 1]);
    }
  }

  /** Picking at distinct positions reads the same values as choosing them. */
  lemma {:induction false} PickIsChosen(s: seq<real>, positions: seq<nat>)
    requires forall k :: 0 <= k < |positions| ==> positions[k] < |s|
    requires Distinct(positions)
    ensures multiset(Pick(s, positions)) == multiset(Chosen(s, positions))
  {
    if positions == [] {
      ChosenNone(s);
    } else {
      var n := |positions|;
      var earlier := positions[..n - 1];
      var i := positions[n - 1];
      assert Distinct(earlier);
      assert i !in earlier;
      assert positions == earlier + [i];
      PickIsChosen(s, earlier);
      ChosenInsert(s, earlier, i);
    }
  }

  /**
   * Values read at distinct positions of `s` are drawn from `s`: each value
   * at most as often as it occurs there.
   */
  lemma PickSubMultiset(s: seq<real>, positions: seq<nat>)
    requires forall k :: 0 <= k < |positions| ==> positions[k] < |s|
    requires Distinct(positions)
    ensures multiset(Pick(s, positions)) <= multiset(s)
  {
    PickIsChosen(s, positions);
    ChosenSubMultiset(s, positions);
  }

  // ---------------------------------------------------------------------------
  // nDCG is at most 1
  // ---------------------------------------------------------------------------

  /** The gains of the first `m` ranks are the gains of the first `m` retrieved ids. */
  lemma GainsPrefix(retrieved: seq<ChunkId>, groundTruth: seq<ChunkId>, relevancies: seq<real>, m: nat)
    requires |groundTruth| <= |relevancies| && m <= |retrieved|
    ensures Gains(retrieved, groundTruth, relevancies)[..m] == Gains(retrieved[..m], groundTruth, relevancies)
  {
  }

  /** `s` cut or padded with zeros to length `n`. */
  function Padded(s: seq<real>, n: nat): (p: seq<real>)
    ensures |p| == n
  {
    seq(n, i requires 0 <= i < n => if i < |s| then s[i] else 0.0)
  }

  /** The first `m` padded values sum to the first `m` values of `s`. */
  lemma {:induction false} PaddedPrefixSum(s: seq<real>, n: nat, m: nat)
    requires m <= n
    ensures Sum(Padded(s, n)[..m]) == Sum(Take(s, m))
  {
    var p := Padded(s, n);
    if m > 0 {
      PaddedPrefixSum(s, n, m - 1);
      SumPrefixLast(p, m);
      if m <= |s| {
        SumPrefixLast(s, m);
      }
    }
  }

  /** Padding with zeros adds nothing to a discounted sum. */
  lemma {:induction false} PaddedDiscountedSum(s: seq<real>, n: nat, log2: real -> real)
    requires PositiveLog(log2)
    ensures DiscountedSum(Padded(s, n), log2) == DiscountedSum(Take(s, n), log2)
  {
    if n > 0 {
      var p := Padded(s, n);
      assert p[..n - 1] == Padded(s, n - 1);
      PaddedDiscountedSum(s, n - 1, log2);
      if n <= |s| {
        assert s[..n][..n - 1] == s[..n - 1];
      } else {
        assert 0.0 / log2(1.0 + n as real) == 0.0;
      }
    }
  }

  /**
   * A ranking whose gains are, rank by rank, the largest relevancies in
   * descending order, followed by misses once the relevancies run out,
   * reaches the ideal DCG.
   */
  lemma IdealRankingReachesIdcg(retrieved: seq<ChunkId>, groundTruth: seq<ChunkId>, relevancies: seq<real>, log2: real -> real)
    requires |groundTruth| <= |relevancies|
    requires PositiveLog(log2)
    requires Gains(retrieved, groundTruth, relevancies) == Padded(SortDesc(relevancies), |retrieved|)
    ensures Dcg(retrieved, groundTruth, relevancies, log2) == Idcg(relevancies, |retrieved|, log2)
  {
    DcgIsDiscountedGains(retrieved, groundTruth, relevancies, log2);
    PaddedDiscountedSum(SortDesc(relevancies), |retrieved|, log2);
  }

  /** Such an ideal ranking has nDCG 1 whenever the ideal DCG is positive. */
  lemma IdealRankingNdcgOne(retrieved: seq<ChunkId>, groundTruth: seq<ChunkId>, relevancies: seq<real>, log2: real -> real)
    requires |groundTruth| <= |relevancies|
    requires PositiveLog(log2)
    requires Gains(retrieved, groundTruth, relevancies) == Padded(SortDesc(relevancies), |retrieved|)
    requires Idcg(relevancies, |retrieved|, log2) > 0.0
    ensures Ndcg(retrieved, groundTruth, Some(relevancies), log2) == 1.0
  {
    IdealRankingReachesIdcg(retrieved, groundTruth, relevancies, log2);
    DivideBySelf(Dcg(retrieved, groundTruth, relevancies, log2), Idcg(relevancies, |retrieved|, log2));
  }

  /**
   * More ranks than relevancies: retrieving a, then a miss, against ground
   * truth a with relevancy 1 is an ideal ranking.
   */
  lemma IdealRankingWithMisses(log2: real -> real)
    requires PositiveLog(log2)
    ensures Ndcg(["a", "x"], ["a"], Some([1.0]), log2) == 1.0
  {
    var retrieved, groundTruth, rels := ["a", "x"], ["a"], [1.0];
    assert SortDesc(rels) == rels by {
      DescendingUnique(SortDesc(rels), rels);
    }
    assert IndexOf(groundTruth, "a") == 0;
    assert Gains(retrieved, groundTruth, rels) == [1.0, 0.0] == Padded(SortDesc(rels), 2);
    IdcgPositive(rels, 2, log2);
    IdealRankingNdcgOne(retrieved, groundTruth, rels, log2);
  }

  /** With non-negative values, a longer prefix has the larger sum. */
  lemma {:induction false} SumTakeMonotone(s: seq<real>, a: nat, b: nat)
    requires Nonnegative(s) && a <= b
    ensures Sum(Take(s, a)) <= Sum(Take(s, b))
    decreases b
  {
    if a < b {
      SumTakeMonotone(s, a, b - 1);
      if b <= |s| {
        SumPrefixLast(s, b);
      }
    }
  }

  /** The relevancies sorted in descending order are non-negative when they are. */
  lemma SortedNonnegative(relevancies: seq<real>)
    requires Nonnegative(relevancies)
    ensures Nonnegative(SortDesc(relevancies))
  {
    var sorted := SortDesc(relevancies);
    TopNonnegative(relevancies, |sorted|);
    assert Take(sorted, |sorted|) == sorted;
  }

  /**
   * Without repeated retrieved ids, the gains of all ranks sum to at most the
   * same number of largest relevancies.
   */
  lemma GainsSumBound(retrieved: seq<ChunkId>, groundTruth: seq<ChunkId>, relevancies: seq<real>)
    requires |groundTruth| <= |relevancies| && Nonnegative(relevancies)
    requires Distinct(retrieved)
    ensures Sum(Gains(retrieved, groundTruth, relevancies)) <= Sum(Take(SortDesc(relevancies), |retrieved|))
  {
    var sorted := SortDesc(relevancies);
    var positions := HitPositions(retrieved, groundTruth);
    var hits := Pick(relevancies, positions);
    assert Sum(hits) <= Sum(Take(sorted, |hits|)) by {
      HitPositionsDistinct(retrieved, groundTruth);
      PickSubMultiset(relevancies, positions);
      TopSumBound(hits, sorted);
      assert sorted[..|hits|] == Take(sorted, |hits|);
    }
    SumGainsIsSumHits(retrieved, groundTruth, relevancies);
    SortedNonnegative(relevancies);
    SumTakeMonotone(sorted, |hits|, |retrieved|);
  }

  /**
   * Without repeated retrieved ids, the gains of the first `m` ranks sum to at
   * most the `m` largest relevancies.
   */
  lemma GainsPrefixBound(retrieved: seq<ChunkId>, groundTruth: seq<ChunkId>, relevancies: seq<real>, m: nat)
    requires |groundTruth| <= |relevancies| && Nonnegative(relevancies)
    requires Distinct(retrieved) && m <= |retrieved|
    ensures Sum(Gains(retrieved, groundTruth, relevancies)[..m]) <= Sum(Take(SortDesc(relevancies), m))
  {
    GainsPrefix(retrieved, groundTruth, relevancies, m);
    assert Distinct(retrieved[..m]);
    GainsSumBound(retrieved[..m], groundTruth, relevancies);
  }

  /**
   * Without repeated retrieved ids, every prefix of the gains sums to at most
   * the same prefix of the ideal ranking, padded with zeros.
   */
  lemma GainsDominated(retrieved: seq<ChunkId>, groundTruth: seq<ChunkId>, relevancies: seq<real>)
    requires |groundTruth| <= |relevancies| && Nonnegative(relevancies)
    requires Distinct(retrieved)
    ensures PrefixDominated(Gains(retrieved, groundTruth, relevancies), Padded(SortDesc(relevancies), |retrieved|))
  {
    var g := Gains(retrieved, groundTruth, relevancies);
    var ideal := Padded(SortDesc(relevancies), |retrieved|);
    forall m | 0 <= m <= |g|
      ensures Sum(g[..m]) <= Sum(ideal[..m])
    {
      GainsPrefixBound(retrieved, groundTruth, relevancies, m);
      PaddedPrefixSum(SortDesc(relevancies), |retrieved|, m);
    }
  }

  /**
   * Without repeated retrieved ids, with non-negative relevancies and a
   * discount that does not decrease with rank, the DCG of the walk is at most
   * the ideal DCG over the same number of ranks.
   */
  lemma DcgAtMostIdcg(retrieved: seq<ChunkId>, groundTruth: seq<ChunkId>, relevancies: seq<real>, log2: real -> real)
    requires |groundTruth| <= |relevancies| && Nonnegative(relevancies)
    requires PositiveLog(log2) && MonotoneLog(log2)
    requires Distinct(retrieved)
    ensures Dcg(retrieved, groundTruth, relevancies, log2) <= Idcg(relevancies, |retrieved|, log2)
  {
    var ideal := Padded(SortDesc(relevancies), |retrieved|);
    DcgIsDiscountedGains(retrieved, groundTruth, relevancies, log2);
    GainsDominated(retrieved, groundTruth, relevancies);
    DominatedDiscountedSum(Gains(retrieved, groundTruth, relevancies), ideal, log2);
    PaddedDiscountedSum(SortDesc(relevancies), |retrieved|, log2);
  }

  /** A quotient of a number by a positive number at least as large is at most 1. */
  lemma QuotientAtMostOne(a: real, b: real)
    requires 0.0 < b && a <= b
    ensures a / b <= 1.0
  {
    assert a / b * b == a;
  }

  /**
   * Without repeated retrieved ids, with non-negative relevancies and a
   * discount that does not decrease with rank, nDCG lies within [0, 1].
   */
  lemma NdcgAtMostOne(retrieved: seq<ChunkId>, groundTruth: seq<ChunkId>, relevancies: seq<real>, log2: real -> real)
    requires |groundTruth| <= |relevancies| && Nonnegative(relevancies)
    requires PositiveLog(log2) && MonotoneLog(log2)
    requires Distinct(retrieved)
    ensures 0.0 <= Ndcg(retrieved, groundTruth, Some(relevancies), log2) <= 1.0
  {
    NdcgNonnegative(retrieved, groundTruth, relevancies, log2);
    var idcg := Idcg(relevancies, |retrieved|, log2);
    if idcg > 0.0 {
      DcgAtMostIdcg(retrieved, groundTruth, relevancies, log2);
      QuotientAtMostOne(Dcg(retrieved, groundTruth, relevancies, log2), idcg);
    }
  }
}
