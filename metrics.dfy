/**
 * utils/metrics.py: the scorer with the noise penalty and its aggregator.
 *
 * `calculate_metrics` walks the retrieved chunk ids once, accumulating the
 * hit count, the AP sum, the DCG (when relevancies are given) and a noise
 * sum: the aligned noise of each hit when noises are given, and a fixed
 * penalty for each miss. `calculate_mean_metrics` averages a list of its
 * results key by key.
 */
module Metrics {
  import opened Sorting
  import opened Averaging
  import opened Scoring

  /** The noise added for every retrieved id that is not a ground-truth id. */
  const MissPenalty: real := 5.0

  /** The record `calculate_metrics` returns (its five dictionary keys). */
  datatype MetricResult = MetricResult(precision: real, noise: real, recall: real, ap: real, ndcg: real)

  /** The record `calculate_mean_metrics` returns: the mean of `ap` is reported under the key `map` (here `mAP`). */
  datatype MeanMetrics = MeanMetrics(precision: real, noise: real, recall: real, mAP: real, ndcg: real)

  /** The keys of a result. */
  datatype Key = PrecisionKey | NoiseKey | RecallKey | ApKey | NdcgKey

  /** `m[key]`. */
  function Get(m: MetricResult, key: Key): real
  {
    match key
    case PrecisionKey => m.precision
    case NoiseKey => m.noise
    case RecallKey => m.recall
    case ApKey => m.ap
    case NdcgKey => m.ndcg
  }

  /** The summary entry that averages `key`: the mean of `ap` is under `map`. */
  function SummaryGet(s: MeanMetrics, key: Key): real
  {
    match key
    case PrecisionKey => s.precision
    case NoiseKey => s.noise
    case RecallKey => s.recall
    case ApKey => s.mAP
    case NdcgKey => s.ndcg
  }

  /** The lookup of one key, as a projection to average over. */
  function Column(key: Key): MetricResult -> real
  {
    m => Get(m, key)
  }

  /**
   * The noise sum of the walk: at a hit, the noise aligned with the first
   * occurrence of the id when noises are given (nothing otherwise); at a
   * miss, the penalty.
   */
  function NoiseSum(retrieved: seq<ChunkId>, groundTruth: seq<ChunkId>, noises: Option<seq<real>>): real
    requires noises.Some? ==> |groundTruth| <= |noises.value|
  {
    if retrieved == [] then 0.0
    else
      var n := |retrieved|;
      NoiseSum(retrieved[..n - 1], groundTruth, noises)
        + (if retrieved[n - 1] in groundTruth then
             (if noises.Some? then noises.value[IndexOf(groundTruth, retrieved[n - 1])] else 0.0)
           else MissPenalty)
  }

  /** Without noise scores, the noise sum is the penalty times the number of misses. */
  lemma {:induction false} NoiseSumWithoutNoises(retrieved: seq<ChunkId>, groundTruth: seq<ChunkId>)
    ensures HitCount(retrieved, groundTruth) <= |retrieved|
    ensures NoiseSum(retrieved, groundTruth, None)
         == MissPenalty * (|retrieved| - HitCount(retrieved, groundTruth)) as real
  {
    HitCountBound(retrieved, groundTruth);
    if retrieved != [] {
      NoiseSumWithoutNoises(retrieved[..|retrieved| - 1], groundTruth);
    }
  }

  /** When nothing is a hit, every rank adds the penalty, whatever the noise scores. */
  lemma {:induction false} NoOverlapNoiseSum(retrieved: seq<ChunkId>, groundTruth: seq<ChunkId>, noises: Option<seq<real>>)
    requires noises.Some? ==> |groundTruth| <= |noises.value|
    requires NoOverlap(retrieved, groundTruth)
    ensures NoiseSum(retrieved, groundTruth, noises) == MissPenalty * |retrieved| as real
  {
    if retrieved != [] {
      var n := |retrieved|;
      assert NoOverlap(retrieved[..n - 1], groundTruth);
      NoOverlapNoiseSum(retrieved[..n - 1], groundTruth, noises);
    }
  }

  /** With non-negative noise scores, the noise sum is non-negative. */
  lemma {:induction false} NoiseSumNonnegative(retrieved: seq<ChunkId>, groundTruth: seq<ChunkId>, noises: Option<seq<real>>)
    requires noises.Some? ==> |groundTruth| <= |noises.value| && Nonnegative(noises.value)
    ensures NoiseSum(retrieved, groundTruth, noises) >= 0.0
  {
    if retrieved != [] {
      NoiseSumNonnegative(retrieved[..|retrieved| - 1], groundTruth, noises);
    }
  }

  /** `noise_sum / K`. */
  function Noise(retrieved: seq<ChunkId>, groundTruth: seq<ChunkId>, noises: Option<seq<real>>): real
    requires retrieved != []
    requires noises.Some? ==> |groundTruth| <= |noises.value|
  {
    NoiseSum(retrieved, groundTruth, noises) / |retrieved| as real
  }

  /** With no hit at all, every rank is a miss and the noise is the miss penalty. */
  lemma NoOverlapNoise(retrieved: seq<ChunkId>, groundTruth: seq<ChunkId>, noises: Option<seq<real>>)
    requires retrieved != []
    requires noises.Some? ==> |groundTruth| <= |noises.value|
    requires NoOverlap(retrieved, groundTruth)
    ensures Noise(retrieved, groundTruth, noises) == MissPenalty
  {
    NoOverlapNoiseSum(retrieved, groundTruth, noises);
    DivideMultiple(MissPenalty, |retrieved| as real);
  }

  /** Without noise scores, the noise is 5 per miss, over K. */
  lemma NoiseWithoutNoises(retrieved: seq<ChunkId>, groundTruth: seq<ChunkId>)
    requires retrieved != []
    ensures HitCount(retrieved, groundTruth) <= |retrieved|
    ensures Noise(retrieved, groundTruth, None)
         == MissPenalty * (|retrieved| - HitCount(retrieved, groundTruth)) as real / |retrieved| as real
  {
    NoiseSumWithoutNoises(retrieved, groundTruth);
  }

  /** With non-negative noise scores, the noise is non-negative. */
  lemma NoiseNonnegative(retrieved: seq<ChunkId>, groundTruth: seq<ChunkId>, noises: Option<seq<real>>)
    requires retrieved != []
    requires noises.Some? ==> |groundTruth| <= |noises.value| && Nonnegative(noises.value)
    ensures Noise(retrieved, groundTruth, noises) >= 0.0
  {
    NoiseSumNonnegative(retrieved, groundTruth, noises);
    QuotientSigns(NoiseSum(retrieved, groundTruth, noises), |retrieved| as real);
  }

  /** The record of a non-empty ranking, built from the metrics the walk defines. */
  function Scores(
    retrieved: seq<ChunkId>,
    groundTruth: seq<ChunkId>,
    relevancies: Option<seq<real>>,
    noises: Option<seq<real>>,
    log2: real -> real
  ): MetricResult
    requires retrieved != []
    requires relevancies.Some? ==> |groundTruth| <= |relevancies.value|
    requires noises.Some? ==> |groundTruth| <= |noises.value|
    requires PositiveLog(log2)
  {
    MetricResult(
      precision := Precision(retrieved, groundTruth),
      noise := Noise(retrieved, groundTruth, noises),
      recall := Recall(retrieved, groundTruth),
      ap := AveragePrecision(retrieved, groundTruth),
      ndcg := Ndcg(retrieved, groundTruth, relevancies, log2))
  }

  /**
   * With no retrieved id in the ground truth, precision, recall, AP and nDCG
   * are 0 and the noise is exactly the penalty, 5.
   */
  lemma NoOverlapScores(
    retrieved: seq<ChunkId>,
    groundTruth: seq<ChunkId>,
    relevancies: Option<seq<real>>,
    noises: Option<seq<real>>,
    log2: real -> real
  )
    requires retrieved != []
    requires relevancies.Some? ==> |groundTruth| <= |relevancies.value|
    requires noises.Some? ==> |groundTruth| <= |noises.value|
    requires PositiveLog(log2)
    requires NoOverlap(retrieved, groundTruth)
    ensures Scores(retrieved, groundTruth, relevancies, noises, log2) == MetricResult(0.0, MissPenalty, 0.0, 0.0, 0.0)
  {
    NoOverlapScoresZero(retrieved, groundTruth, relevancies, log2);
    NoOverlapNoise(retrieved, groundTruth, noises);
  }

  /**
   * `calculate_metrics`. The cutoff K is the number of retrieved ids; with
   * none retrieved the precision step divides by zero. `log2` stands for
   * `math.log2`.
   */
  method CalculateMetrics(
    retrieved: seq<ChunkId>,
    groundTruth: seq<ChunkId>,
    relevancies: Option<seq<real>>,
    noises: Option<seq<real>>,
    log2: real -> real
  ) returns (r: Result<MetricResult>)
    requires relevancies.Some? ==> |groundTruth| <= |relevancies.value|
    requires noises.Some? ==> |groundTruth| <= |noises.value|
    requires PositiveLog(log2)
    ensures r.Failure? <==> retrieved == []
    ensures r.Failure? ==> r.error == ZeroDivisionError
    ensures r.Success? ==> r.value == Scores(retrieved, groundTruth, relevancies, noises, log2)
    ensures r.Success? ==> 0.0 <= r.value.precision <= 1.0 && 0.0 <= r.value.ap <= r.value.recall
  {
    var K := |retrieved|;
    var averagePrecisionSum := 0.0;
    var noiseSum := 0.0;
    var hitCount := 0;
    var dcg := 0.0;
    var groundTruthSet := set x | x in groundTruth;
    for k := 1 to K + 1
      invariant hitCount == HitCount(retrieved[..k - 1], groundTruth)
      invariant averagePrecisionSum == ApSum(retrieved[..k - 1], groundTruth)
      invariant noiseSum == NoiseSum(retrieved[..k - 1], groundTruth, noises)
      invariant relevancies.Some? ==> dcg == Dcg(retrieved[..k - 1], groundTruth, relevancies.value, log2)
    {
      var chunk := retrieved[k - 1];
      assert retrieved[..k][..k - 1] == retrieved[..k - 1];
      assert chunk in groundTruthSet <==> chunk in groundTruth;
      if chunk in groundTruthSet {
        hitCount := hitCount + 1;
        averagePrecisionSum := averagePrecisionSum + hitCount as real / k as real;
        if relevancies.Some? {
          var rel := relevancies.value[IndexOf(groundTruth, chunk)];
          dcg := dcg + rel / log2(1.0 + k as real);
        }
        if noises.Some? {
          noiseSum := noiseSum + noises.value[IndexOf(groundTruth, chunk)];
        }
      } else {
        noiseSum := noiseSum + MissPenalty;
      }
    }
    assert retrieved[..K] == retrieved;

    if K == 0 {
      return Failure(ZeroDivisionError);
    }
    var precision := hitCount as real / K as real;
    var noise := noiseSum / K as real;
    var recall := if groundTruth != [] then hitCount as real / |groundTruth| as real else 0.0;
    var averagePrecision := if groundTruth != [] then averagePrecisionSum / |groundTruth| as real else 0.0;

    var ndcg := 0.0;
    if relevancies.Some? {
      var idcg := Idcg(relevancies.value, K, log2);
      ndcg := if idcg > 0.0 then dcg / idcg else 0.0;
    }
    assert MetricResult(precision, noise, recall, averagePrecision, ndcg)
        == Scores(retrieved, groundTruth, relevancies, noises, log2) by {
      assert precision == Precision(retrieved, groundTruth);
      assert noise == Noise(retrieved, groundTruth, noises);
      assert recall == Recall(retrieved, groundTruth);
      assert averagePrecision == AveragePrecision(retrieved, groundTruth);
      assert ndcg == Ndcg(retrieved, groundTruth, relevancies, log2);
    }
    r := Success(MetricResult(precision, noise, recall, averagePrecision, ndcg));
  }

  /**
   * `calculate_mean_metrics`: every key averaged over the list, `ap` under
   * `map`. An empty list divides by zero.
   */
  function CalculateMeanMetrics(metrics: seq<MetricResult>): (r: Result<MeanMetrics>)
    ensures r.Failure? <==> metrics == []
    ensures r.Failure? ==> r.error == ZeroDivisionError
    ensures r.Success? ==> forall key :: SummaryGet(r.value, key) == Mean(metrics, Column(key))
  {
    if metrics == [] then Failure(ZeroDivisionError)
    else
      Success(MeanMetrics(
        precision := Mean(metrics, Column(PrecisionKey)),
        noise := Mean(metrics, Column(NoiseKey)),
        recall := Mean(metrics, Column(RecallKey)),
        mAP := Mean(metrics, Column(ApKey)),
        ndcg := Mean(metrics, Column(NdcgKey))))
  }

  /** When one key lies within [lo, hi] in every result, so does its mean. */
  lemma MeanMetricsBounds(metrics: seq<MetricResult>, key: Key, lo: real, hi: real)
    requires metrics != []
    requires forall m <- metrics :: lo <= Get(m, key) <= hi
    ensures CalculateMeanMetrics(metrics).Success?
    ensures lo <= SummaryGet(CalculateMeanMetrics(metrics).value, key) <= hi
  {
    MeanBounds(metrics, Column(key), lo, hi);
  }

  /** The summary does not depend on the order of the results. */
  lemma MeanMetricsOrderIndependent(metrics: seq<MetricResult>, reordered: seq<MetricResult>)
    requires multiset(metrics) == multiset(reordered)
    ensures CalculateMeanMetrics(metrics) == CalculateMeanMetrics(reordered)
  {
    if metrics == [] {
      assert |reordered| == |multiset(reordered)| == 0;
    } else {
      forall key
        ensures Mean(metrics, Column(key)) == Mean(reordered, Column(key))
      {
        MeanPermutation(metrics, reordered, Column(key));
      }
    }
  }

  /** The summary of a single result is that result, with `ap` under `map`. */
  lemma MeanMetricsSingleton(m: MetricResult)
    ensures CalculateMeanMetrics([m]) == Success(MeanMetrics(m.precision, m.noise, m.recall, m.ap, m.ndcg))
  {
    forall key
      ensures Mean([m], Column(key)) == Get(m, key)
    {
      assert [m][1..] == [];
      assert SumOf([m], Column(key)) == Column(key)(m) + SumOf([], Column(key));
    }
  }
}
