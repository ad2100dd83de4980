# Retrieval-metric scorer

A Dafny model of the scorer in the chunking-evaluation repository. The scorer
rates one ranked list of retrieved chunk ids against the ground-truth chunk
ids of a question. `calculate_metrics` walks the ranking once, rank `k` from
1 to `K = len(retrieved_chunks)`, and keeps four running values:

- a hit count;
- a running average-precision sum, which gains `hit_count / k` at every hit;
- a discounted cumulative gain (DCG), when relevancies are given;
- a noise sum (in `utils/metrics.py` only), which gains the hit's noise score
  at a hit and a fixed penalty of 5 at a miss.

From these it derives precision, recall, average precision (AP), nDCG and,
in `utils/metrics.py`, noise. `calculate_mean_metrics` averages a list of
such records key by key and reports the mean of `ap` under `map`.

The two copies of the scorer are modelled side by side:

- `Metrics` models `utils/metrics.py`: five keys, with noise.
- `Evaluation` models `utils/evaluation.py`: four keys, without noise.

Three modules hold what the copies share:

- `Scoring` holds the walk's specification functions (`HitCount`, `ApSum`,
  `Dcg`, `Idcg`), the derived metrics and their properties.
- `Sorting` specifies the descending sort used by the ideal DCG.
- `Averaging` holds the sum and mean used by the aggregators.

A fourth module, `NdcgBound`, proves that nDCG never exceeds 1 when no id is
retrieved twice. The proof has two halves:

- The relevancies read at the hit ranks come from distinct ground-truth
  positions. So the first m gains sum to at most the m largest relevancies.
- The discount grows with the rank. So gains whose prefix sums are bounded
  this way have a smaller discounted sum (summation by parts).

`NdcgBound` sums plain values with its own `Sum`, which peels off the last
value, as `DiscountedSum` and the walk do. The inductions on prefixes then
unfold both at the same end. `Averaging.SumOf` peels off the first value
instead, and `NdcgBound.SumIsSumOf` proves that the two sums agree.

Each `calculate_metrics` is a method with the source's loop. Its invariants
tie each accumulator to a prefix-recursive function of the ranks walked so
far. Its postcondition states the whole result record, `Scores`, in terms of
those functions, and the lemmas in `Scoring` and `Metrics` state what the
metrics mean.

Modelling choices:

- Numbers are `real`. Python's floats, and the `int` 0 that starts each
  accumulator, both become exact rationals.
- `math.log2` is a parameter `log2: real -> real`. The only thing assumed
  about it is `PositiveLog`: it is positive above 1, as every discount
  `log2(1 + k)` with `k >= 1` is.
- The nDCG bound also assumes `MonotoneLog`: `log2` does not decrease above
  1, so a later rank is never discounted less than an earlier one.
- A division by zero becomes `Failure(ZeroDivisionError)` of a `Result`. That
  covers an empty ranking and an empty list of records.
- The relevancies and noise scores are read at the position of an id's first
  occurrence in the ground truth (`list.index`). The model requires these
  lists to be at least as long as the ground truth, so that the lookup never
  raises `IndexError`.

## Model

| member | source | states |
|---|---|---|
| Metrics.CalculateMetrics | utils/metrics.py:13-66 | fails with a division by zero exactly when nothing is retrieved; otherwise returns precision, noise, recall, AP and nDCG of the whole ranking (`Scores`), with precision in [0, 1] and 0 <= AP <= recall |
| Evaluation.CalculateMetrics | utils/evaluation.py:5-47 | the same without noise: fails exactly on an empty ranking; otherwise the four-key record of precision, recall, AP and nDCG, with precision in [0, 1] and 0 <= AP <= recall |
| Scoring.IndexOf | utils/metrics.py:31-33 | `list.index`: the position of an id present in the list, holding that id, with no earlier occurrence |
| Scoring.HitCount | utils/metrics.py:26-28 | defines the hit count of a ranking prefix: one per rank whose id is a ground-truth id, repeats counted again; `HitCountBound` and `DistinctHitCount` state its properties |
| Scoring.ApSum | utils/metrics.py:26-29 | defines the AP sum of a prefix: the precision at k added at each hit rank k; `ApIncrementBounds` and `ApSumBounds` state its properties |
| Scoring.Dcg | utils/metrics.py:26-34 | defines the DCG of a prefix: the relevancy of the id's first ground-truth occurrence over `log2(1 + k)` at each hit rank k; `DcgIsDiscountedGains` relates it to the gains |
| Scoring.Idcg | utils/metrics.py:52-57 | defines the ideal DCG: the K largest relevancies in descending order, discounted by rank; `NdcgBound.DcgAtMostIdcg` bounds the DCG by it |
| Scoring.Ndcg | utils/metrics.py:50-58 | defines nDCG: 0 without relevancies, `dcg / idcg` when the ideal DCG is positive, 0 otherwise; `NdcgNonnegative` and `NdcgBound.NdcgAtMostOne` bound it |
| Scoring.HitCountBound | utils/metrics.py:26-29 | the hit count rises at most once per rank, so it never exceeds the number of ranks walked |
| Scoring.Precision | utils/metrics.py:43 | `hit_count / K` lies within [0, 1] |
| Scoring.Recall | utils/metrics.py:45 | is 0 without ground truth and never negative; is at most 1 when no id is retrieved twice |
| Scoring.ApIncrementBounds | utils/metrics.py:27-29 | at a hit rank k the AP sum grows by exactly `hit_count / k`, and that term lies within (0, 1] |
| Scoring.ApSumBounds | utils/metrics.py:26-29 | summing those increments, the AP sum lies between 0 and the hit count |
| Scoring.AveragePrecision | utils/metrics.py:46-48 | is 0 without ground truth, and 0 <= AP <= recall |
| Scoring.NoOverlapNoHits | utils/metrics.py:27-29 | with no retrieved id in the ground truth, the hit count and the AP sum are both 0 |
| Scoring.NoOverlapScoresZero | utils/metrics.py:43-58 | with no retrieved id in the ground truth, precision, recall, AP and nDCG are all 0 |
| Scoring.DistinctHitCount | utils/evaluation.py:15-18 | without repeated retrieved ids, the hit count equals the number of distinct ground-truth ids retrieved |
| Scoring.DistinctElementsBound | utils/evaluation.py:15 | the set of a list's ids is no larger than the list |
| Scoring.HitCountDistinctBound | utils/evaluation.py:15-18 | without repeated retrieved ids, the hit count is at most the number of distinct ground-truth ids, hence at most `len(ground_truth_chunks)` |
| Scoring.RepeatedHitsCount | utils/evaluation.py:15-18 | a ground-truth id retrieved n times counts as n hits |
| Scoring.RepeatedHitsRecall | utils/evaluation.py:27 | so with one ground-truth id retrieved n times the recall is n, above 1 for n > 1 |
| Scoring.ThreeRankExample | utils/metrics.py:43-48 | ranking a, b, x against a, b gives precision 2/3, recall 1 and AP 1: AP divides by the number of ground-truth ids |
| Scoring.Gain | utils/metrics.py:31-33 | defines the graded relevance of one retrieved id: `ground_truth_relevancies[ground_truth_chunks.index(id)]` for a ground-truth id, 0 otherwise |
| Scoring.Gains | utils/metrics.py:30-33 | the gain at each rank is the relevancy of the id's first ground-truth occurrence at a hit, 0 at a miss, one per rank |
| Scoring.DcgIsDiscountedGains | utils/metrics.py:30-34 | the DCG accumulated by the walk is the discounted sum of the per-rank gains |
| Scoring.NoOverlapDcg | utils/metrics.py:27-34 | with no hit the DCG is 0 |
| Scoring.Take | utils/metrics.py:55 | the slice `[:K]`: the first `min(K, len)` elements |
| Sorting.InsertDesc | utils/metrics.py:55 | inserting into a non-increasing list keeps it non-increasing and adds exactly the one element |
| Sorting.SortDesc | utils/metrics.py:55 | `sorted(..., reverse=True)`: a non-increasing permutation of the relevancies |
| Sorting.DescendingUnique | utils/metrics.py:55 | any two non-increasing permutations of the same values are equal, so the ideal DCG does not depend on the sort used |
| Sorting.SortDescHeadIsMax | utils/metrics.py:55 | the first sorted relevancy is a largest one |
| Scoring.DiscountedSum | utils/metrics.py:52-57 | defines the generator sum of `value / log2(1 + k)` over values enumerated from rank 1; `DiscountedSumNonnegative` and `DiscountedSumPositive` state its properties |
| Scoring.DiscountedSumNonnegative | utils/metrics.py:52-57 | a discounted sum of non-negative values is non-negative |
| Scoring.DiscountedSumPositive | utils/metrics.py:52-57 | it is positive when its first value is positive |
| Scoring.TopNonnegative | utils/metrics.py:55 | sorting and slicing keeps non-negative relevancies non-negative |
| Scoring.GainsNonnegative | utils/metrics.py:31-33 | gains drawn from non-negative relevancies are non-negative |
| Scoring.DcgNonnegative | utils/metrics.py:34-57 | with non-negative relevancies, DCG and ideal DCG are non-negative |
| Scoring.NdcgNonnegative | utils/metrics.py:50-58 | with non-negative relevancies, nDCG is non-negative |
| Scoring.IdcgPositive | utils/metrics.py:52-58 | with non-negative relevancies, one of them positive and K >= 1, the ideal DCG is positive, so nDCG is `dcg / idcg` |
| Scoring.RepeatedIdGains | utils/metrics.py:30-33 | a ground-truth id retrieved at two ranks gains the relevancy of its first ground-truth occurrence at both |
| Scoring.RepeatedHitDcg | utils/metrics.py:30-34 | the example: "a" retrieved twice against ground truth a, b with relevancies 3, 0 has DCG `3 / log2(2) + 3 / log2(3)` |
| Scoring.ExampleIdcg | utils/metrics.py:52-57 | the ideal DCG of relevancies 3, 0 over two ranks is `3 / log2(2)` |
| Scoring.RepeatedHitInflatesNdcg | utils/metrics.py:50-58 | retrieving "a" twice against ground truth a, b with relevancies 3, 0 gives nDCG above 1, whatever the positive discount |
| NdcgBound.HitPositions | utils/metrics.py:31-33 | the ground-truth positions `list.index` reads at the hit ranks: at most one per rank, each inside the ground truth |
| NdcgBound.SumGainsIsSumHits | utils/metrics.py:27-34 | a miss adds nothing, so the gains sum to the relevancies read at the hit positions |
| NdcgBound.HitPositionsDistinct | utils/metrics.py:31-33 | without repeated retrieved ids, no ground-truth position is read twice |
| NdcgBound.PickSubMultiset | utils/metrics.py:31-33 | relevancies read at distinct positions are a sub-multiset of the relevancies |
| NdcgBound.TopSumBound | utils/metrics.py:55 | values taken from a sub-multiset of a non-increasing list sum to at most as many of its leading values |
| NdcgBound.GainsSumBound | utils/metrics.py:30-55 | without repeated retrieved ids and with non-negative relevancies, the gains sum to at most the K largest relevancies |
| NdcgBound.GainsPrefixBound | utils/metrics.py:30-55 | the same for the first m ranks: their gains sum to at most the m largest relevancies |
| NdcgBound.GainsDominated | utils/metrics.py:30-57 | every prefix of the gains sums to at most the same prefix of the ideal ranking |
| NdcgBound.DominatedDiscountedSum | utils/metrics.py:34 | summation by parts: with a discount that does not decrease with rank, prefix-dominated values have the smaller discounted sum |
| NdcgBound.PaddedDiscountedSum | utils/metrics.py:52-57 | padding the ideal ranking with zeros up to K ranks leaves the ideal DCG unchanged |
| NdcgBound.IdealRankingReachesIdcg | utils/metrics.py:30-57 | a ranking whose gains are the top relevancies in descending order, followed by misses once the relevancies run out, has DCG equal to the ideal DCG |
| NdcgBound.IdealRankingNdcgOne | utils/metrics.py:50-58 | such a ranking has nDCG exactly 1 when the ideal DCG is positive |
| NdcgBound.IdealRankingWithMisses | utils/metrics.py:50-58 | retrieving a, then a miss, against ground truth a with relevancy 1 gives nDCG exactly 1 |
| NdcgBound.SumIsSumOf | utils/metrics.py:52-57 | the last-element sum the bound is proved with equals the front-to-back `sum` |
| NdcgBound.DcgAtMostIdcg | utils/metrics.py:30-57 | without repeated retrieved ids, with non-negative relevancies and a non-decreasing `log2`, DCG is at most the ideal DCG |
| NdcgBound.NdcgAtMostOne | utils/metrics.py:50-58 | under the same conditions nDCG lies within [0, 1] |
| Metrics.NoiseSum | utils/metrics.py:26-41 | defines the noise sum of a prefix: the noise score of the id's first ground-truth occurrence at a hit when scores are given, nothing at a hit without them, 5 at a miss (the constant `MissPenalty`) |
| Metrics.Noise | utils/metrics.py:44 | defines the noise as `noise_sum / K`; `NoiseWithoutNoises`, `NoOverlapNoise` and `NoiseNonnegative` state its properties |
| Metrics.Scores | utils/metrics.py:43-66 | defines the record of a non-empty ranking from precision, noise, recall, AP and nDCG; `Metrics.CalculateMetrics` returns it |
| Metrics.NoiseSumWithoutNoises | utils/metrics.py:36-41 | without noise scores, the noise sum is 5 per miss: `5 * (K - hit_count)` |
| Metrics.NoiseWithoutNoises | utils/metrics.py:36-44 | without noise scores, `noise = 5 * (K - hit_count) / K` |
| Metrics.NoOverlapNoiseSum | utils/metrics.py:40-41 | with no hit, every rank adds the penalty 5 |
| Metrics.NoOverlapNoise | utils/metrics.py:40-44 | with no hit, the noise is exactly 5 |
| Metrics.NoiseSumNonnegative | utils/metrics.py:36-41 | with non-negative noise scores (or none), the noise sum is non-negative |
| Metrics.NoiseNonnegative | utils/metrics.py:36-44 | with non-negative noise scores (or none), the noise is non-negative |
| Metrics.NoOverlapScores | utils/metrics.py:27-44 | with no retrieved id in the ground truth, the record is precision 0, noise 5, recall 0, AP 0, nDCG 0 |
| Metrics.Get | utils/metrics.py:70-74 | defines `m[key]` for the five keys of a record |
| Metrics.SummaryGet | utils/metrics.py:76-82 | defines the summary entry for each key, the mean of `ap` under `map` |
| Metrics.Column | utils/metrics.py:70-74 | defines the projection `m => m[key]` that each mean sums |
| Metrics.CalculateMeanMetrics | utils/metrics.py:69-82 | fails with a division by zero exactly on an empty list; otherwise every key of the summary is the mean of that key over the records, the mean of `ap` under `map` |
| Metrics.MeanMetricsBounds | utils/metrics.py:69-82 | a key within [lo, hi] in every record is within [lo, hi] in the summary |
| Metrics.MeanMetricsOrderIndependent | utils/metrics.py:69-82 | the summary does not depend on the order of the records |
| Metrics.MeanMetricsSingleton | utils/metrics.py:69-82 | the summary of one record is that record, `ap` renamed to `map` |
| Evaluation.Scores | utils/evaluation.py:26-47 | defines the four-key record of a non-empty ranking; `Evaluation.CalculateMetrics` returns it |
| Evaluation.NoOverlapScores | utils/evaluation.py:17-40 | with no retrieved id in the ground truth, all four metrics are 0 |
| Evaluation.Get | utils/evaluation.py:51-54 | defines `m[key]` for the four keys of a record |
| Evaluation.SummaryGet | utils/evaluation.py:56-61 | defines the summary entry for each key, the mean of `ap` under `map` |
| Evaluation.Column | utils/evaluation.py:51-54 | defines the projection `m => m[key]` that each mean sums |
| Evaluation.CalculateMeanMetrics | utils/evaluation.py:50-61 | fails exactly on an empty list; otherwise the key-wise mean of precision, recall, AP (under `map`) and nDCG |
| Evaluation.MeanMetricsBounds | utils/evaluation.py:50-61 | a key within [lo, hi] in every record is within [lo, hi] in the summary |
| Evaluation.MeanMetricsOrderIndependent | utils/evaluation.py:50-61 | the summary does not depend on the order of the records |
| Evaluation.MeanMetricsSingleton | utils/evaluation.py:50-61 | the summary of one record is that record, `ap` renamed to `map` |
| Averaging.SumOf | utils/metrics.py:70-74 | defines `sum(m[key] for m in metrics)`, with the key lookup as a projection; the lemmas below state its properties |
| Averaging.Mean | utils/metrics.py:70-74 | defines the mean as that sum over `len(metrics)`, for a non-empty list |
| Averaging.SumOfAppend | utils/metrics.py:70-74 | summing over a concatenation adds the two sums |
| Averaging.SumOfPermutation | utils/metrics.py:70-74 | the sum does not depend on the order of the summands |
| Averaging.SumOfBounds | utils/metrics.py:70-74 | n summands within [lo, hi] sum to within [n * lo, n * hi] |
| Averaging.MeanBounds | utils/metrics.py:70-74 | a mean of values within [lo, hi] lies within [lo, hi] |
| Averaging.MeanPermutation | utils/metrics.py:70-74 | the mean does not depend on the order of the records |

## Left out

- `utils/data_loader.py` and `utils/loader.py` are not part of this model. They only read and write JSON and JSON Lines files, list directories and build `langchain_core` documents.
- The `Testset` record type (`utils/metrics.py:5-10`) is a schema that the scorer never uses.
- Floating-point rounding and the concrete values of `math.log2` are not modelled. The discount is any function positive above 1, so no concrete nDCG value built on `log2(2) = 1` is stated.
- An `IndexError` from relevancies or noise scores shorter than the ground truth is not modelled. The methods require these lists to be at least as long as the ground truth. Shorter lists on which no hit reads past the end are excluded too, although the code scores them normally: retrieved `a` against ground truth `a, b` with relevancies `2` is one.
- Result records are datatypes with one field per key. A `KeyError` from a record that lacks a key, and records with extra keys, are therefore not modelled.
- Python's library sort is not modelled. `SortDesc` specifies its result, and `DescendingUnique` shows that every correct descending sort gives the same list.
- Scoring.Ndcg: the upper bound of 1 is stated only for rankings without repeated ids, non-negative relevancies and a `log2` that does not decrease (`NdcgBound.NdcgAtMostOne`). `RepeatedHitInflatesNdcg` shows that nDCG exceeds 1 when a ground-truth id is retrieved twice.
- Scoring.Recall: the bound `recall <= 1` is stated only for rankings without repeated ids; `RepeatedHitsRecall` shows that it fails otherwise.
- Behaviour the code does not have is not modelled:
  - there is no cutoff argument: K is always `len(retrieved_chunks)`;
  - an empty ranking fails with a division by zero;
  - ids match by equality only;
  - the aggregator does not check that the records share one set of keys.
