/**
 * The per-query walk shared by both copies of `calculate_metrics`: a ranked
 * list of retrieved chunk ids is scanned rank by rank (rank 1 first) against
 * the ground-truth chunk ids. Each accumulator of the loop is specified here
 * by a function of the prefix scanned so far, recursing on the last element,
 * so one loop iteration is one unfolding.
 */
module Scoring {
  import opened Sorting

  datatype Option<T> = None | Some(value: T)

  /** The only failure the scorer and the aggregator can raise. */
  datatype Error = ZeroDivisionError

  datatype Result<T> = Success(value: T) | Failure(error: Error)

  type ChunkId = string

  /**
   * What the model needs of `math.log2`: it is positive beyond 1. The
   * discount of rank k is log2(1 + k), so it is positive for every rank.
   */
  ghost predicate PositiveLog(log2: real -> real)
  {
    forall x: real :: x > 1.0 ==> log2(x) > 0.0
  }

  /** No id occurs twice. */
  predicate Distinct<T(==)>(s: seq<T>)
  {
    forall i, j :: 0 <= i < j < |s| ==> s[i] != s[j]
  }

  /** No retrieved id is a ground-truth id. */
  predicate NoOverlap(retrieved: seq<ChunkId>, groundTruth: seq<ChunkId>)
  {
    forall i :: 0 <= i < |retrieved| ==> retrieved[i] !in groundTruth
  }

  /** `list.index`: the position of the first occurrence of `x` in `s`. */
  function IndexOf(s: seq<ChunkId>, x: ChunkId): (i: nat)
    requires x in s
    ensures i < |s| && s[i] == x
    ensures forall j :: 0 <= j < i ==> s[j] != x
  {
    if s[0] == x then 0 else 1 + IndexOf(s[1..], x)
  }

  /** The number of ranks whose id is a ground-truth id (repeats count again). */
  function HitCount(retrieved: seq<ChunkId>, groundTruth: seq<ChunkId>): nat
  {
    if retrieved == [] then 0
    else
      var n := |retrieved|;
      HitCount(retrieved[..n - 1], groundTruth)
        + (if retrieved[n - 1] in groundTruth then 1 else 0)
  }

  /** Sum, over the hit ranks k, of the precision at k (hits so far / k). */
  function ApSum(retrieved: seq<ChunkId>, groundTruth: seq<ChunkId>): real
  {
    if retrieved == [] then 0.0
    else
      var n := |retrieved|;
      ApSum(retrieved[..n - 1], groundTruth)
        + (if retrieved[n - 1] in groundTruth
           then HitCount(retrieved, groundTruth) as real / n as real
           else 0.0)
  }

  /**
   * The graded relevance of one retrieved id: the relevance aligned with its
   * first occurrence among the ground-truth ids, 0 for a miss.
   */
  function Gain(x: ChunkId, groundTruth: seq<ChunkId>, relevancies: seq<real>): real
    requires |groundTruth| <= |relevancies|
  {
    if x in groundTruth then relevancies[IndexOf(groundTruth, x)] else 0.0
  }

  /** The gain of every rank, in rank order. */
  function Gains(retrieved: seq<ChunkId>, groundTruth: seq<ChunkId>, relevancies: seq<real>): (g: seq<real>)
    requires |groundTruth| <= |relevancies|
    ensures |g| == |retrieved|
    ensures forall i :: 0 <= i < |retrieved| ==> g[i] == Gain(retrieved[i], groundTruth, relevancies)
  {
    if retrieved == [] then []
    else
      var n := |retrieved|;
      Gains(retrieved[..n - 1], groundTruth, relevancies) + [Gain(retrieved[n - 1], groundTruth, relevancies)]
  }

  /** Sum of value / log2(1 + rank) over the values, the first having rank 1. */
  function DiscountedSum(values: seq<real>, log2: real -> real): real
    requires PositiveLog(log2)
  {
    if values == [] then 0.0
    else
      var n := |values|;
      DiscountedSum(values[..n - 1], log2) + values[n - 1] / log2(1.0 + n as real)
  }

  /** The DCG the loop accumulates: relevance / log2(1 + k) at each hit rank k. */
  function Dcg(retrieved: seq<ChunkId>, groundTruth: seq<ChunkId>, relevancies: seq<real>, log2: real -> real): real
    requires |groundTruth| <= |relevancies|
    requires PositiveLog(log2)
  {
    if retrieved == [] then 0.0
    else
      var n := |retrieved|;
      Dcg(retrieved[..n - 1], groundTruth, relevancies, log2)
        + (if retrieved[n - 1] in groundTruth
           then relevancies[IndexOf(groundTruth, retrieved[n - 1])] / log2(1.0 + n as real)
           else 0.0)
  }

  /** Python's `s[:k]`: the first k elements, or all of them when there are fewer. */
  function Take(s: seq<real>, k: nat): (t: seq<real>)
    ensures |t| <= k && |t| <= |s|
    ensures t == s[..|t|]
    ensures |t| == k || t == s
  {
    if k <= |s| then s[..k] else s
  }

  /** The ideal DCG: the k largest relevancies, in descending order, discounted by rank. */
  function Idcg(relevancies: seq<real>, k: nat, log2: real -> real): real
    requires PositiveLog(log2)
  {
    DiscountedSum(Take(SortDesc(relevancies), k), log2)
  }

  // ---------------------------------------------------------------------------
  // The metrics derived after the walk
  // ---------------------------------------------------------------------------

  /** `hit_count / K`, with K the number of retrieved ids: always within [0, 1]. */
  function Precision(retrieved: seq<ChunkId>, groundTruth: seq<ChunkId>): (p: real)
    requires retrieved != []
    ensures 0.0 <= p <= 1.0
  {
    HitCountBound(retrieved, groundTruth);
    FractionBounds(HitCount(retrieved, groundTruth) as real, |retrieved| as real);
    HitCount(retrieved, groundTruth) as real / |retrieved| as real
  }

  /**
   * `hit_count / len(ground_truth_chunks)`, 0 without ground truth. Without
   * repeated retrieved ids it is at most 1.
   */
  function Recall(retrieved: seq<ChunkId>, groundTruth: seq<ChunkId>): (rc: real)
    ensures groundTruth == [] ==> rc == 0.0
    ensures rc >= 0.0
    ensures Distinct(retrieved) ==> rc <= 1.0
  {
    if groundTruth == [] then 0.0
    else
      var hits := HitCount(retrieved, groundTruth);
      assert Distinct(retrieved) ==> hits <= |groundTruth| by {
        if Distinct(retrieved) {
          HitCountDistinctBound(retrieved, groundTruth);
        }
      }
      hits as real / |groundTruth| as real
  }

  /**
   * `average_precision_sum / len(ground_truth_chunks)`, 0 without ground
   * truth: the denominator is the number of ground-truth ids, not the hits.
   * It never exceeds the recall.
   */
  function AveragePrecision(retrieved: seq<ChunkId>, groundTruth: seq<ChunkId>): (ap: real)
    ensures groundTruth == [] ==> ap == 0.0
    ensures 0.0 <= ap <= Recall(retrieved, groundTruth)
  {
    if groundTruth == [] then 0.0
    else
      ApSumBounds(retrieved, groundTruth);
      ApSum(retrieved, groundTruth) / |groundTruth| as real
  }

  /**
   * nDCG with cutoff K = |retrieved|: 0 without relevancies, `dcg / idcg`
   * when the ideal DCG is positive, 0 otherwise.
   */
  function Ndcg(retrieved: seq<ChunkId>, groundTruth: seq<ChunkId>, relevancies: Option<seq<real>>, log2: real -> real): real
    requires relevancies.Some? ==> |groundTruth| <= |relevancies.value|
    requires PositiveLog(log2)
  {
    if relevancies.None? then 0.0
    else
      var idcg := Idcg(relevancies.value, |retrieved|, log2);
      if idcg > 0.0 then Dcg(retrieved, groundTruth, relevancies.value, log2) / idcg else 0.0
  }

  // ---------------------------------------------------------------------------
  // Properties of the walk
  // ---------------------------------------------------------------------------

  /** A hit is counted at most once per rank, so there are at most K hits. */
  lemma {:induction false} HitCountBound(retrieved: seq<ChunkId>, groundTruth: seq<ChunkId>)
    ensures HitCount(retrieved, groundTruth) <= |retrieved|
  {
    if retrieved != [] {
      HitCountBound(retrieved[..|retrieved| - 1], groundTruth);
    }
  }

  /**
   * At a hit rank k the AP sum grows by the precision at k, hits so far / k,
   * which lies in (0, 1]: the hit just counted makes it positive, and there
   * are at most k hits in k ranks.
   */
  lemma ApIncrementBounds(prefix: seq<ChunkId>, groundTruth: seq<ChunkId>)
    requires prefix != [] && prefix[|prefix| - 1] in groundTruth
    ensures ApSum(prefix, groundTruth) - ApSum(prefix[..|prefix| - 1], groundTruth)
      == HitCount(prefix, groundTruth) as real / |prefix| as real
    ensures 0.0 < HitCount(prefix, groundTruth) as real / |prefix| as real <= 1.0
  {
    HitCountBound(prefix, groundTruth);
    FractionBounds(HitCount(prefix, groundTruth) as real, |prefix| as real);
  }

  /** With every increment in (0, 1], the AP sum lies between 0 and the number of hits. */
  lemma {:induction false} ApSumBounds(retrieved: seq<ChunkId>, groundTruth: seq<ChunkId>)
    ensures 0.0 <= ApSum(retrieved, groundTruth) <= HitCount(retrieved, groundTruth) as real
  {
    if retrieved != [] {
      var n := |retrieved|;
      ApSumBounds(retrieved[..n - 1], groundTruth);
      if retrieved[n - 1] in groundTruth {
        ApIncrementBounds(retrieved, groundTruth);
      }
    }
  }

  /** Without a single hit, the hit count and the AP sum are both zero. */
  lemma {:induction false} NoOverlapNoHits(retrieved: seq<ChunkId>, groundTruth: seq<ChunkId>)
    requires NoOverlap(retrieved, groundTruth)
    ensures HitCount(retrieved, groundTruth) == 0
    ensures ApSum(retrieved, groundTruth) == 0.0
  {
    if retrieved != [] {
      var n := |retrieved|;
      assert NoOverlap(retrieved[..n - 1], groundTruth);
      NoOverlapNoHits(retrieved[..n - 1], groundTruth);
    }
  }

  /** The ids of `s` that are also ground-truth ids. */
  function HitIds(s: seq<ChunkId>, groundTruth: seq<ChunkId>): set<ChunkId>
  {
    set x | x in s && x in groundTruth
  }

  /** Without repeated ids, the hit count is the number of distinct ids hit. */
  lemma {:induction false} DistinctHitCount(retrieved: seq<ChunkId>, groundTruth: seq<ChunkId>)
    requires Distinct(retrieved)
    ensures HitCount(retrieved, groundTruth) == |HitIds(retrieved, groundTruth)|
  {
    if retrieved != [] {
      var n := |retrieved|;
      var init, last := retrieved[..n - 1], retrieved[n - 1];
      assert Distinct(init);
      DistinctHitCount(init, groundTruth);
      assert last !in init;
      assert retrieved == init + [last];
      forall x
        ensures x in HitIds(retrieved, groundTruth) <==> x in HitIds(init, groundTruth) || (x == last && last in groundTruth)
      {
        assert x in retrieved <==> x in init || x == last;
      }
      if last in groundTruth {
        assert HitIds(retrieved, groundTruth) == HitIds(init, groundTruth) + {last};
      } else {
        assert HitIds(retrieved, groundTruth) == HitIds(init, groundTruth);
      }
    }
  }

  /** A sequence has at least as many elements as distinct elements. */
  lemma {:induction false} DistinctElementsBound(s: seq<ChunkId>)
    ensures |set x | x in s| <= |s|
  {
    if s != [] {
      DistinctElementsBound(s[1..]);
      assert (set x | x in s) == (set x | x in s[1..]) + {s[0]};
    }
  }

  /**
   * Without repeated retrieved ids, there are at most as many hits as there
   * are distinct ground-truth ids, and so at most |groundTruth|.
   */
  lemma HitCountDistinctBound(retrieved: seq<ChunkId>, groundTruth: seq<ChunkId>)
    requires Distinct(retrieved)
    ensures HitCount(retrieved, groundTruth) <= |set x | x in groundTruth|
    ensures HitCount(retrieved, groundTruth) <= |groundTruth|
  {
    DistinctHitCount(retrieved, groundTruth);
    var hit, all := HitIds(retrieved, groundTruth), set x | x in groundTruth;
    assert all == hit + (all - hit);
    DistinctElementsBound(groundTruth);
  }

  /** A list repeating one id `n` times. */
  function Repeat(x: ChunkId, n: nat): (s: seq<ChunkId>)
    ensures |s| == n && forall i :: 0 <= i < n ==> s[i] == x
  {
    seq(n, _ => x)
  }

  /**
   * Repeated ids are not collapsed: a ground-truth id retrieved n times is n
   * hits, against a ground truth of one id, so recall reaches n.
   */
  lemma {:induction false} RepeatedHitsCount(x: ChunkId, n: nat)
    ensures HitCount(Repeat(x, n), [x]) == n
  {
    if n > 0 {
      assert Repeat(x, n)[..n - 1] == Repeat(x, n - 1);
      RepeatedHitsCount(x, n - 1);
    }
  }

  // ---------------------------------------------------------------------------
  // Properties of the DCG
  // ---------------------------------------------------------------------------

  /** The loop's DCG is the discounted sum of the gains, rank by rank. */
  lemma {:induction false} DcgIsDiscountedGains(retrieved: seq<ChunkId>, groundTruth: seq<ChunkId>, relevancies: seq<real>, log2: real -> real)
    requires |groundTruth| <= |relevancies|
    requires PositiveLog(log2)
    ensures Dcg(retrieved, groundTruth, relevancies, log2)
         == DiscountedSum(Gains(retrieved, groundTruth, relevancies), log2)
  {
    if retrieved != [] {
      var n := |retrieved|;
      DcgIsDiscountedGains(retrieved[..n - 1], groundTruth, relevancies, log2);
      assert Gains(retrieved, groundTruth, relevancies)[..n - 1]
          == Gains(retrieved[..n - 1], groundTruth, relevancies);
    }
  }

  /** Every value is at least 0. */
  predicate Nonnegative(values: seq<real>)
  {
    forall i :: 0 <= i < |values| ==> values[i] >= 0.0
  }

  /** Without a single hit, the DCG is zero. */
  lemma {:induction false} NoOverlapDcg(retrieved: seq<ChunkId>, groundTruth: seq<ChunkId>, relevancies: seq<real>, log2: real -> real)
    requires |groundTruth| <= |relevancies|
    requires PositiveLog(log2)
    requires NoOverlap(retrieved, groundTruth)
    ensures Dcg(retrieved, groundTruth, relevancies, log2) == 0.0
  {
    if retrieved != [] {
      var n := |retrieved|;
      assert NoOverlap(retrieved[..n - 1], groundTruth);
      NoOverlapDcg(retrieved[..n - 1], groundTruth, relevancies, log2);
    }
  }

  /** Non-negative values give a non-negative discounted sum. */
  lemma {:induction false} DiscountedSumNonnegative(values: seq<real>, log2: real -> real)
    requires PositiveLog(log2)
    requires Nonnegative(values)
    ensures DiscountedSum(values, log2) >= 0.0
  {
    if values != [] {
      DiscountedSumNonnegative(values[..|values| - 1], log2);
    }
  }

  /** Non-negative values with a positive first value give a positive discounted sum. */
  lemma {:induction false} DiscountedSumPositive(values: seq<real>, log2: real -> real)
    requires PositiveLog(log2)
    requires values != [] && values[0] > 0.0
    requires Nonnegative(values)
    ensures DiscountedSum(values, log2) > 0.0
  {
    var n := |values|;
    var d := log2(1.0 + n as real);
    QuotientSigns(values[n - 1], d);
    if n > 1 {
      DiscountedSumPositive(values[..n - 1], log2);
    } else {
      assert values[..0] == [];
    }
  }

  /** The signs of a quotient by a positive divisor. */
  lemma QuotientSigns(x: real, y: real)
    requires y > 0.0
    ensures x == 0.0 ==> x / y == 0.0
    ensures x >= 0.0 ==> x / y >= 0.0
    ensures x > 0.0 ==> x / y > 0.0
  {
  }

  /** Sorting and truncating keeps every value non-negative. */
  lemma TopNonnegative(relevancies: seq<real>, k: nat)
    requires Nonnegative(relevancies)
    ensures Nonnegative(Take(SortDesc(relevancies), k))
  {
    var sorted := SortDesc(relevancies);
    forall i | 0 <= i < |sorted|
      ensures sorted[i] >= 0.0
    {
      assert sorted[i] in multiset(relevancies);
    }
  }

  /** With non-negative relevancies, every gain is non-negative. */
  lemma GainsNonnegative(retrieved: seq<ChunkId>, groundTruth: seq<ChunkId>, relevancies: seq<real>)
    requires |groundTruth| <= |relevancies|
    requires Nonnegative(relevancies)
    ensures Nonnegative(Gains(retrieved, groundTruth, relevancies))
  {
  }

  /** With non-negative relevancies, both the DCG and the ideal DCG are non-negative. */
  lemma DcgNonnegative(retrieved: seq<ChunkId>, groundTruth: seq<ChunkId>, relevancies: seq<real>, k: nat, log2: real -> real)
    requires |groundTruth| <= |relevancies|
    requires PositiveLog(log2)
    requires Nonnegative(relevancies)
    ensures Dcg(retrieved, groundTruth, relevancies, log2) >= 0.0
    ensures Idcg(relevancies, k, log2) >= 0.0
  {
    DcgIsDiscountedGains(retrieved, groundTruth, relevancies, log2);
    GainsNonnegative(retrieved, groundTruth, relevancies);
    DiscountedSumNonnegative(Gains(retrieved, groundTruth, relevancies), log2);
    TopNonnegative(relevancies, k);
    DiscountedSumNonnegative(Take(SortDesc(relevancies), k), log2);
  }

  /** With non-negative relevancies, nDCG is non-negative. */
  lemma NdcgNonnegative(retrieved: seq<ChunkId>, groundTruth: seq<ChunkId>, relevancies: seq<real>, log2: real -> real)
    requires |groundTruth| <= |relevancies|
    requires PositiveLog(log2)
    requires Nonnegative(relevancies)
    ensures Ndcg(retrieved, groundTruth, Some(relevancies), log2) >= 0.0
  {
    var idcg := Idcg(relevancies, |retrieved|, log2);
    DcgNonnegative(retrieved, groundTruth, relevancies, |retrieved|, log2);
    if idcg > 0.0 {
      QuotientSigns(Dcg(retrieved, groundTruth, relevancies, log2), idcg);
    }
  }

  /**
   * With non-negative relevancies of which one is positive, the ideal DCG of
   * any cutoff k >= 1 is positive, so nDCG is then dcg / idcg.
   */
  lemma IdcgPositive(relevancies: seq<real>, k: nat, log2: real -> real)
    requires PositiveLog(log2)
    requires k >= 1
    requires Nonnegative(relevancies)
    requires exists i :: 0 <= i < |relevancies| && relevancies[i] > 0.0
    ensures Idcg(relevancies, k, log2) > 0.0
  {
    var i :| 0 <= i < |relevancies| && relevancies[i] > 0.0;
    var sorted := SortDesc(relevancies);
    SortDescHeadIsMax(relevancies);
    assert relevancies[i] in relevancies;
    assert sorted[0] >= relevancies[i] > 0.0;
    var top := Take(sorted, k);
    assert top[0] == sorted[0];
    TopNonnegative(relevancies, k);
    DiscountedSumPositive(top, log2);
  }

  /** A part of a positive whole is a fraction within [0, 1]. */
  lemma FractionBounds(part: real, whole: real)
    requires 0.0 <= part <= whole && whole > 0.0
    ensures 0.0 <= part / whole <= 1.0
  {
  }

  /** Dividing a multiple of `y` by `y` gives back the factor. */
  lemma DivideMultiple(c: real, y: real)
    requires y > 0.0
    ensures (c * y) / y == c
  {
  }

  /** A positive number divided by itself is 1. */
  lemma DivideBySelf(x: real, y: real)
    requires y > 0.0 && x == y
    ensures x / y == 1.0
  {
  }

  // ---------------------------------------------------------------------------
  // Whole-query consequences
  // ---------------------------------------------------------------------------

  /** With no retrieved id in the ground truth, precision, recall, AP and nDCG are all 0. */
  lemma NoOverlapScoresZero(retrieved: seq<ChunkId>, groundTruth: seq<ChunkId>, relevancies: Option<seq<real>>, log2: real -> real)
    requires relevancies.Some? ==> |groundTruth| <= |relevancies.value|
    requires PositiveLog(log2)
    requires NoOverlap(retrieved, groundTruth)
    ensures retrieved != [] ==> Precision(retrieved, groundTruth) == 0.0
    ensures Recall(retrieved, groundTruth) == 0.0
    ensures AveragePrecision(retrieved, groundTruth) == 0.0
    ensures Ndcg(retrieved, groundTruth, relevancies, log2) == 0.0
  {
    NoOverlapNoHits(retrieved, groundTruth);
    if relevancies.Some? {
      NoOverlapDcg(retrieved, groundTruth, relevancies.value, log2);
      var idcg := Idcg(relevancies.value, |retrieved|, log2);
      if idcg > 0.0 {
        QuotientSigns(0.0, idcg);
      }
    }
  }

  /**
   * Repeated ids each count as a hit: one ground-truth id retrieved n times
   * gives recall n.
   */
  lemma RepeatedHitsRecall(x: ChunkId, n: nat)
    ensures Recall(Repeat(x, n), [x]) == n as real
  {
    RepeatedHitsCount(x, n);
  }

  /**
   * Repeated ids also push nDCG above 1: retrieving "a" twice against ground
   * truth ["a", "b"] with relevancies [3, 0] gains 3 at both ranks, while the
   * ideal ranking gains 3 and then 0.
   */
  lemma RepeatedHitInflatesNdcg(log2: real -> real)
    requires PositiveLog(log2)
    ensures Ndcg(["a", "a"], ["a", "b"], Some([3.0, 0.0]), log2) > 1.0
  {
    var x, y := 3.0 / log2(2.0), 3.0 / log2(3.0);
    QuotientSigns(3.0, log2(2.0));
    QuotientSigns(3.0, log2(3.0));
    RepeatedHitDcg(log2);
    ExampleIdcg(log2);
    SumOverPart(x, y);
  }

  /**
   * A ground-truth id retrieved at two ranks gains, at both, the relevancy of
   * its first ground-truth occurrence: the walk does not remember earlier hits.
   */
  lemma RepeatedIdGains(retrieved: seq<ChunkId>, groundTruth: seq<ChunkId>, relevancies: seq<real>, i: nat, j: nat)
    requires |groundTruth| <= |relevancies|
    requires i < j < |retrieved| && retrieved[i] == retrieved[j] && retrieved[i] in groundTruth
    ensures Gains(retrieved, groundTruth, relevancies)[i] == relevancies[IndexOf(groundTruth, retrieved[i])]
    ensures Gains(retrieved, groundTruth, relevancies)[j] == relevancies[IndexOf(groundTruth, retrieved[i])]
  {
  }

  /** The example: "a" retrieved twice against ground truth a, b with relevancies 3, 0 gains 3 at both ranks. */
  lemma RepeatedHitDcg(log2: real -> real)
    requires PositiveLog(log2)
    ensures Dcg(["a", "a"], ["a", "b"], [3.0, 0.0], log2) == 3.0 / log2(2.0) + 3.0 / log2(3.0)
  {
    var retrieved, groundTruth, rels := ["a", "a"], ["a", "b"], [3.0, 0.0];
    assert IndexOf(groundTruth, "a") == 0;
    assert Gains(retrieved, groundTruth, rels) == [3.0, 3.0];
    DcgIsDiscountedGains(retrieved, groundTruth, rels, log2);
    DiscountedSumOfTwo(3.0, 3.0, log2);
  }

  lemma ExampleIdcg(log2: real -> real)
    requires PositiveLog(log2)
    ensures Idcg([3.0, 0.0], 2, log2) == 3.0 / log2(2.0)
  {
    var rels := [3.0, 0.0];
    DescendingUnique(SortDesc(rels), rels);
    DiscountedSumOfTwo(3.0, 0.0, log2);
    QuotientSigns(0.0, log2(3.0));
  }

  /** The discounted sum of two values: ranks 1 and 2 are discounted by log2(2) and log2(3). */
  lemma DiscountedSumOfTwo(a: real, b: real, log2: real -> real)
    requires PositiveLog(log2)
    ensures DiscountedSum([a, b], log2) == a / log2(2.0) + b / log2(3.0)
  {
    assert [a, b][..1] == [a] && [a][..0] == [];
    assert DiscountedSum([a], log2) == a / log2(1.0 + 1 as real);
    assert 1.0 + 1 as real == 2.0 && 1.0 + 2 as real == 3.0;
  }

  lemma SumOverPart(x: real, y: real)
    requires x > 0.0 && y > 0.0
    ensures (x + y) / x > 1.0
  {
  }

  /**
   * The denominator of AP is the number of ground-truth ids: ranking a, b, x
   * against ground truth a, b gives precision 2/3, recall 1 and AP
   * (1/1 + 2/2) / 2 = 1.
   */
  lemma ThreeRankExample()
    ensures Precision(["a", "b", "x"], ["a", "b"]) == 2.0 / 3.0
    ensures Recall(["a", "b", "x"], ["a", "b"]) == 1.0
    ensures AveragePrecision(["a", "b", "x"], ["a", "b"]) == 1.0
  {
    var retrieved: seq<ChunkId> := ["a", "b", "x"];
    var groundTruth: seq<ChunkId> := ["a", "b"];
    assert "a" in groundTruth && "b" in groundTruth && "x" !in groundTruth;
    assert retrieved[..2] == ["a", "b"] && retrieved[..2][..1] == ["a"] && retrieved[..2][..1][..0] == [];
    assert HitCount(["a"], groundTruth) == 1;
    assert HitCount(["a", "b"], groundTruth) == 2;
    assert HitCount(retrieved, groundTruth) == 2;
    assert ApSum(["a"], groundTruth) == 1.0;
    assert ApSum(["a", "b"], groundTruth) == 2.0;
    assert ApSum(retrieved, groundTruth) == 2.0;
  }
}
