# Rank-based evaluation of link prediction, modelled in Dafny

This project models the rank-based evaluation core of pykeen, a library for knowledge-graph
embeddings. The core has three parts:

- **The metric-key grammar** (`MetricKey.lookup`, `__str__`, `normalize`).
  - A metric is named by a string `name[.side][.type][.k]`.
  - It is read by a prefix match of `METRIC_PATTERN`. The match is followed by the hits@k rewrite,
    the synonym tables, the side and rank-type defaults, and the check that some metrics are
    realistic-only.
  - The prefix match is modelled as an explicit parser over characters (`MetricKeys.MatchPattern`).
- **The rank reductions.**
  - `get_ranking_metrics` fills one dictionary entry per key of `ALL_TYPE_FUNCS`.
  - `weighted_median` is modelled exactly as written.
  - `get_macro_ranking_metrics` yields the weighted statistics.
  - Ranks are exact reals of at least 1. The geometric mean and the square root are kept symbolic,
    and NaN is an explicit sentinel value.
- **The evaluators and their result table.** These are stateful objects, modelled as Dafny classes
  with `modifies` clauses, loops and invariants:
  - `RankBasedEvaluator` keeps rank buffers per (side, rank type). `process_scores_` appends to them.
    `finalize` reduces every (side, rank type) pool into the result table and then clears the buffers.
  - `MacroRankBasedEvaluator` also records each observation's grouping key. It weights each
    observation by one over the number of observations that share its key.
  - `SampledRankBasedEvaluator` narrows every score row to the true score followed by the scores of
    a fixed row of negatives. `sample_negatives` draws those negatives.
  - `RankBasedMetricResults` answers `_get_metric` and flattens itself through `_iter_rows` and
    `to_flat_dict`.

| module (file) | source |
|---|---|
| `Wrappers` (wrappers.dfy) | `Option` and `Result` |
| `Vocabulary` (vocabulary.dfy) | sides, rank types, the rank-type synonyms, the expected-rank table, triples and grouping keys |
| `Text` (text.dfy) | character classes of the regular expressions, `str.lower`, `int`/`str` of digit strings |
| `MetricKeys` (metric_keys.dfy) | `MetricKey` in `metrics.py` |
| `Numeric` (numeric.dfy) | `np.sum`, `np.cumsum`, `np.sort` and `np.argsort` in exact arithmetic |
| `RankStats` (rank_stats.dfy) | `ALL_TYPE_FUNCS`, `get_ranking_metrics`, `weighted_median`, `get_macro_ranking_metrics` |
| `Results` (results.dfy) | `RankBasedMetricResults` |
| `Evaluator` (evaluator.dfy) | `RankBasedEvaluator` |
| `MacroEvaluator` (macro_evaluator.dfy) | `MacroRankBasedEvaluator` |
| `Sampling` (sampling.dfy) | `sample_negatives` |
| `SampledEvaluator` (sampled_evaluator.dfy) | `SampledRankBasedEvaluator` |

How the stateful code is specified:

- Each `finalize` is specified by a function of the state it reads: `Evaluator.FinalizeSpec` and
  `MacroEvaluator.MacroFinalizeSpec`. Both are a fold over the nine (side, rank type) pairs, in the
  order that `itt.product(SIDES, RANK_TYPES)` gives.
- The method's loop is proved equal to that function.
- What the source promises about the table is proved as lemmas about the function: which entries
  exist, their values, their ranges, and exactly when `finalize` raises.
- `process_scores_` is specified by `Evaluator.Appended` and `MacroEvaluator.AppendKeys`.
- `sample_negatives` is specified by the predicate `Sampling.SampledTable`.

Python exceptions are modelled as `Failure` values, one constructor per `raise`, assertion or runtime
error the code can reach. The stateful methods state what they change when they fail as well as when
they succeed.

## Where the code differs from its documented intent

All of these are modelled as the code is written.

- **`normalize` is not idempotent when k is 0.**
  - `__str__` drops a falsy `k`, so `normalize("hits@0")` is `"hits_at_k.both.realistic"`.
  - Normalizing that again gives `k = 10`: `MetricKeys.NormalizeNotIdempotentAtZeroK`.
  - Idempotence holds whenever the parsed `k` is absent or non-zero: `MetricKeys.NormalizeIdempotent`.
- **A digit suffix on a name other than hits@k, such as `"mr.5"`, breaks `lookup`.**
  - The captured `k` is left as a string.
  - So it fails the `assert k is None or isinstance(k, int)` on line 104: `MetricKeys.LookupMeanRankWithK`.
- **`weighted_median` is off by one.**
  - It reads `s_ranks[idx]` with `idx` taken from the *0-prefixed* cumulative sum.
  - So uniform weights on `[1, 2, 3]` give 3, where the median is 2: `RankStats.WeightedMedianOffByOne`.
  - It is out of range exactly when the last sorted weight exceeds half of the total:
    `RankStats.WeightedMedianOutOfRange`. A single observation is always out of range:
    `RankStats.WeightedMedianOfOne`.
  - The intended reading, one position earlier, is `RankStats.CorrectedWeightedMedian`. It is the
    first sorted rank whose cumulative weight reaches one half. It is never out of range, and it gives 2 on
    `[1, 2, 3]`: `RankStats.CorrectedWeightedMedianOfUniform`. The macro evaluator keeps the code as written.
  - With the macro weights, each key weighs 1 in total. So `weighted_median` is out of range exactly
    when the pool holds a single observation: `MacroEvaluator.MacroWeightedMedianFails`. With
    aligned buffers, the macro `finalize` therefore raises (IndexError) exactly when some pool of a side and
    base rank type holds one observation: `MacroEvaluator.AlignedFinalizeFailures`.
- **The macro `finalize` never clears the buffers.**
- **A failing micro `finalize` leaves the buffers as they were,** because `clear()` comes after the loop.
- **AAMRI divides by zero when the expected mean rank is exactly 1** (`ZeroDivisionError` on Python
  floats): `Evaluator.PairFails`. This is the only way the micro `finalize` can raise once
  `num_entities` is set: `Evaluator.FinalizeFailures`.
- **The "no `num_entities`" error of `finalize` cannot happen for the sampled evaluator,** because its
  constructor sets `num_entities`: `SampledEvaluator.SampledRankBasedEvaluator.Finalize`.
- **`sample_negatives` divides by zero** (`math.ceil(num_samples / 0)`) when a group's pool is empty and
  samples are asked for: `Sampling.SampleFailsOnlyForEmptyPools`.

## Model

| member | source | states |
|---|---|---|
| `Vocabulary.SideOfName` | src/pykeen/evaluation/metrics.py:110-113 | the side named by a string, exactly when the string is one of SIDES |
| `Vocabulary.RankTypeOfName` | src/pykeen/evaluation/metrics.py:116-120 | the base rank type named by a string, exactly when the string is one of RANK_TYPES |
| `Text.Lower` | src/pykeen/evaluation/metrics.py:87 | `lower()` on ASCII text: keeps the length, maps each upper-case ASCII letter to its lower-case letter and leaves every other character alone |
| `Text.NameRun` | src/pykeen/evaluation/metrics.py:51 | the greedy `[\w@]+` run over ASCII name characters (letters, digits, `_`, `@`): the longest prefix of them |
| `Text.DigitRun` | src/pykeen/evaluation/metrics.py:51-53 | the greedy `\d+` run over ASCII digits: the longest prefix of them |
| `Text.NatToString` | src/pykeen/evaluation/metrics.py:71 | `str(k)` of a natural number: a non-empty digit string without a leading zero |
| `Text.DigitsValueOfNatToString` | src/pykeen/evaluation/metrics.py:71 | reading back `str(k)` gives k again |
| `MetricKeys.Lookup` | src/pykeen/evaluation/metrics.py:75-123 | definition of `lookup`, no contract of its own; characterised by `LookupRejectsUnmatched`, `LookupReachableErrors`, `LookupHitsAlias`, `LookupHitsAtK`, `LookupOtherName`, `LookupIsCanonical` and `LookupOfKeyToString` |
| `MetricKeys.KeyToString` | src/pykeen/evaluation/metrics.py:68-72 | definition of `__str__`, no contract of its own; characterised by `KeyToStringParts`, `HitsAtKStrings` and `LookupOfKeyToString` |
| `MetricKeys.Normalize` | src/pykeen/evaluation/metrics.py:127-129 | definition of `normalize` as `str(lookup(s))`, no contract of its own; characterised by `NormalizeIdempotent` and `NormalizeNotIdempotentAtZeroK` |
| `MetricKeys.FirstAlternative` | src/pykeen/evaluation/metrics.py:48-51 | an optional alternation group matches only a listed word that follows the dot, and matches nothing only when no listed word follows it |
| `MetricKeys.MatchPattern` | src/pykeen/evaluation/metrics.py:50-52 | the prefix match of METRIC_PATTERN: fails exactly on an empty string or a first character outside `[\w@]`; otherwise a non-empty name, and side, type and k groups taken from their alternatives |
| `MetricKeys.HitsMatch` | src/pykeen/evaluation/metrics.py:53 | a match of HITS_PATTERN captures a non-empty digit string |
| `MetricKeys.LookupRejectsUnmatched` | src/pykeen/evaluation/metrics.py:77-79 | `lookup` raises "Invalid metric name" exactly when the pattern does not match a prefix |
| `MetricKeys.LookupReachableErrors` | src/pykeen/evaluation/metrics.py:84-122 | the only errors `lookup` can raise are the unmatched pattern, the assertion on a non-integer k, and a realistic-only metric with another rank type; the empty-name, `int(k)`, negative-k, side and rank-type errors are unreachable |
| `MetricKeys.LookupHitsAlias` | src/pykeen/evaluation/metrics.py:89-93 | a name `hits_at_N`, `hits@N` or `h@N` becomes `hits_at_k` with k = N, overriding any `.k` suffix; side and type are the defaulted groups |
| `MetricKeys.LookupHitsAtK` | src/pykeen/evaluation/metrics.py:94-103 | `hits_at_k` takes the suffix k, defaulting to 10 |
| `MetricKeys.LookupOtherName` | src/pykeen/evaluation/metrics.py:104-124 | any other name: a k suffix fails the assertion; without one the name goes through METRIC_SYNONYMS and the result is the key, or the realistic-only error for AAMR/AAMRI with a non-realistic type |
| `MetricKeys.ResolveHitsOfAlias` | src/pykeen/evaluation/metrics.py:89-103 | the hits rewrite of an alias yields `hits_at_k` and the integer of its digits |
| `MetricKeys.ResolveHitsOfHitsAtK` | src/pykeen/evaluation/metrics.py:94-103 | for `hits_at_k` an absent k becomes 10 and captured digits become their integer |
| `MetricKeys.SideGroupResolves` | src/pykeen/evaluation/metrics.py:110-113 | the side group, defaulted to both and lower-cased, always names a side |
| `MetricKeys.RankTypeGroupResolves` | src/pykeen/evaluation/metrics.py:116-120 | the type group, defaulted to realistic, lower-cased and mapped through RANK_TYPE_SYNONYMS, always names a base rank type |
| `MetricKeys.RankTypeSynonymResolves` | src/pykeen/evaluation/metrics.py:118 | each rank-type synonym is an alternative of the pattern and maps to the rank type it stands for |
| `MetricKeys.SynonymTargetsAreCanonical` | src/pykeen/evaluation/metrics.py:33-46 | every synonym maps to a canonical name, which no synonym or hits rewrite changes again |
| `MetricKeys.LookupIsCanonical` | src/pykeen/evaluation/metrics.py:75-124 | a key `lookup` returns is canonical: a name synonyms leave alone, a base rank type, realistic for AAMR/AAMRI, k present exactly for hits@k and then non-negative |
| `MetricKeys.LookupOfKeyToString` | src/pykeen/evaluation/metrics.py:68-124 | `lookup(str(key)) == key` for every canonical key whose k is not 0 |
| `MetricKeys.KeyToStringParts` | src/pykeen/evaluation/metrics.py:68-72 | for a key whose k is absent or positive, `str(key)` is name, side and rank type joined by dots, followed by `.k` when k is present |
| `MetricKeys.NormalizeIdempotent` | src/pykeen/evaluation/metrics.py:126-129 | `normalize(normalize(s)) == normalize(s)` whenever `lookup(s)` succeeds with k absent or non-zero |
| `MetricKeys.NormalizeNotIdempotentAtZeroK` | src/pykeen/evaluation/metrics.py:68-72 | `normalize("hits@0")` drops the falsy k, and normalizing that again gives k = 10 |
| `MetricKeys.LookupOfPlainName` | src/pykeen/evaluation/metrics.py:107-124 | a bare lower-case name that is neither `hits_at_k` nor a hits alias defaults to both sides and the realistic type and is mapped through the synonyms |
| `MetricKeys.LookupMrr` | src/pykeen/evaluation/metrics.py:44 | `mrr` is the inverse harmonic mean rank, both sides, realistic |
| `MetricKeys.LookupOfHitsAt` | src/pykeen/evaluation/metrics.py:53 | `hits@N` is `hits_at_k` with k = N |
| `MetricKeys.LookupHitsAt5` | src/pykeen/evaluation/metrics.py:89-93 | `hits@5` is `hits_at_k` with k = 5 |
| `MetricKeys.HitsAtKStrings` | src/pykeen/evaluation/metrics.py:68-72 | `str` of hits@k with k = 0 has no suffix, and with k = 10 it ends in `.10` |
| `MetricKeys.LookupOfHitsPrefix` | src/pykeen/evaluation/metrics.py:90-104 | the bare name `hits` is not rewritten and carries no k |
| `MetricKeys.LookupMeanRankWithK` | src/pykeen/evaluation/metrics.py:104 | `mr.5` keeps k as a string and fails the integer assertion |
| `MetricKeys.AmriIsAamri` | src/pykeen/evaluation/metrics.py:38 | `amri` is a synonym of the realistic-only AAMRI |
| `MetricKeys.LookupAmriOptimistic` | src/pykeen/evaluation/metrics.py:121-122 | AAMRI with the optimistic type raises the realistic-only error |
| `RankStats.MetricOfName` | src/pykeen/evaluation/metrics.py:18-31 | the metric a table key names, exactly when the key is one of the metric names |
| `RankStats.MetricOfNameOfMetricName` | src/pykeen/evaluation/metrics.py:18-31 | looking up a metric's name gives the metric back |
| `RankStats.MetricNameInjective` | src/pykeen/evaluation/metrics.py:18-31 | no two metrics share a name |
| `RankStats.TypeFuncsListed` | src/pykeen/evaluation/metrics.py:132-146 | ALL_TYPE_FUNCS lists every metric except the two adjusted ones |
| `RankStats.RankMean` | src/pykeen/evaluation/metrics.py:133 | the mean of ranks is at least 1 |
| `RankStats.HarmonicMean` | src/pykeen/evaluation/metrics.py:134 | the harmonic mean of ranks is at least 1 |
| `RankStats.RankMedian` | src/pykeen/evaluation/metrics.py:136 | the median of ranks is at least 1 |
| `RankStats.MedianAbsoluteDeviation` | src/pykeen/evaluation/metrics.py:144 | the median absolute deviation is non-negative |
| `RankStats.RankingMetrics` | src/pykeen/evaluation/metrics.py:149-154 | the dictionary of `get_ranking_metrics` has exactly one entry per key of ALL_TYPE_FUNCS |
| `RankStats.GetRankingMetrics` | src/pykeen/evaluation/metrics.py:149-154 | the loop that fills the dictionary entry by entry ends with `RankingMetrics` |
| `RankStats.RankingMetricsAt` | src/pykeen/evaluation/metrics.py:152-153 | each entry is its registry function applied to the ranks |
| `RankStats.RankingMetricsMeanRank` | src/pykeen/evaluation/metrics.py:133 | the arithmetic mean rank is the mean of the ranks |
| `RankStats.RankingMetricsInverses` | src/pykeen/evaluation/metrics.py:137-140 | each `inverse_*` entry is the reciprocal of its base reduction (of the mean, not the mean of reciprocals) |
| `RankStats.RankingMetricsSpreadAndCount` | src/pykeen/evaluation/metrics.py:142-145 | the variance is the population variance, the standard deviation its root, and the count the number of ranks |
| `RankStats.MrrIsMeanReciprocalRank` | src/pykeen/evaluation/metrics.py:139 | the inverse harmonic mean rank equals the mean of the reciprocal ranks (MRR) |
| `RankStats.MeanReciprocalRankRange` | src/pykeen/evaluation/metrics.py:139 | MRR lies in (0, 1] |
| `RankStats.RankingMetricsRanges` | src/pykeen/evaluation/metrics.py:132-146 | mean, harmonic mean and median ranks are at least 1, their inverses lie in (0, 1], and the variance and MAD are non-negative |
| `RankStats.SortedPairs` | src/pykeen/evaluation/metrics.py:159-161 | ranks and weights sorted together by rank: a permutation of the (rank, weight) pairs in ascending rank order |
| `RankStats.SearchSorted` | src/pykeen/evaluation/metrics.py:162-164 | `searchsorted(cum, 0.5)`: the least index whose normalised cumulative weight reaches 1/2, or the length when none does |
| `RankStats.WeightedMedian` | src/pykeen/evaluation/metrics.py:157-165 | the weighted median, when in range, is one of the values |
| `RankStats.WeightedMedianIsRank` | src/pykeen/evaluation/metrics.py:157-165 | the weighted median of ranks is a rank |
| `RankStats.WeightedMedianOutOfRange` | src/pykeen/evaluation/metrics.py:162-165 | the index is out of range exactly when the last sorted weight is more than half of the total |
| `RankStats.WeightedMedianOfOne` | src/pykeen/evaluation/metrics.py:162-165 | a single observation is always out of range |
| `RankStats.WeightedMedianOffByOne` | src/pykeen/evaluation/metrics.py:162-165 | uniform weights on [1, 2, 3] give 3, where the median is 2 |
| `RankStats.CorrectedMedianIndex` | src/pykeen/evaluation/metrics.py:162-164 | the position one before the searchsorted index is always in range: the sorted weight before it is less than half the total, and with it at least half |
| `RankStats.CorrectedWeightedMedian` | src/pykeen/evaluation/metrics.py:157-165 | the evidently intended weighted median: one of the values, namely the sorted rank at which the cumulative weight first reaches half the total |
| `RankStats.CorrectedWeightedMedianIsRank` | src/pykeen/evaluation/metrics.py:157-165 | the corrected weighted median of ranks is a rank |
| `RankStats.CorrectedWeightedMedianOfUniform` | src/pykeen/evaluation/metrics.py:157-165 | uniform weights on [1, 2, 3] give the median 2 |
| `RankStats.CorrectedWeightedMedianOfOne` | src/pykeen/evaluation/metrics.py:157-165 | a single observation is its own corrected weighted median, where the code as written is out of range |
| `RankStats.MacroRankingMetrics` | src/pykeen/evaluation/metrics.py:168-187 | the macro statistics fail exactly when the weighted median is out of range; otherwise one entry per key of ALL_TYPE_FUNCS, whose values `MacroRankingMetricsValues` states |
| `RankStats.MacroRankingMetricsRanges` | src/pykeen/evaluation/metrics.py:170-187 | weighted mean and median are at least 1, their inverses lie in (0, 1], the variance is non-negative with the standard deviation its root, the harmonic means and MAD are NaN, and the count is the unweighted size |
| `RankStats.MacroRankingMetricsValues` | src/pykeen/evaluation/metrics.py:170-185 | for any valid weights, a successful result holds the weighted mean (at least 1) as the arithmetic mean rank, its reciprocal as the inverse, the weighted mean of the squared deviations from the weighted mean as the variance with the standard deviation its root, `weighted_median` (in range) and its reciprocal as the median entries, and the weighted geometric mean and its inverse |
| `RankStats.MacroOfOnesAgrees` | src/pykeen/evaluation/metrics.py:168-187 | with all-ones weights, the mean, its inverse, the geometric means, the variance, the standard deviation and the count agree with `get_ranking_metrics` |
| `RankStats.WeightedMeanOfOnes` | src/pykeen/evaluation/metrics.py:170 | `np.average` with all-ones weights is the plain mean |
| `RankStats.WeightedMeanBounds` | src/pykeen/evaluation/metrics.py:170 | a weighted mean lies within any bounds of the values |
| `Results.GetMetricByKey` | src/pykeen/evaluation/rank_based_evaluator.py:246-250 | definition of `_get_metric`, no contract of its own; characterised by `GetMetricByKeyAgreesWithFlatDict` |
| `Results.GetMetric` | src/pykeen/evaluation/rank_based_evaluator.py:202-244 | definition of `get_metric` as `_get_metric(lookup(name))`, no contract of its own; characterised by `GetMetricAgreesWithFlatDict`, `GetMetricOfOtherHitsName` and `GetMetricOfHits` |
| `Results.FlatDict` | src/pykeen/evaluation/rank_based_evaluator.py:252-253 | every row of `_iter_rows` has its entry in the flat dictionary, and every entry comes from a row |
| `Results.FlatDictOfTable` | src/pykeen/evaluation/rank_based_evaluator.py:252-268 | each metric entry and each hits@k entry of the table appears in the flat dictionary under its side, rank type and column, and nothing else does |
| `Results.GetMetricByKeyAgreesWithFlatDict` | src/pykeen/evaluation/rank_based_evaluator.py:246-268 | for a canonical key, `_get_metric` succeeds exactly when the flat dictionary has the corresponding entry, and then returns it |
| `Results.GetMetricOfOtherHitsName` | src/pykeen/evaluation/rank_based_evaluator.py:247-249 | a name that starts with `hits` but is not `hits_at_k` reaches the k assertion without a k |
| `Results.GetMetricOfHits` | src/pykeen/evaluation/rank_based_evaluator.py:244-249 | `get_metric("hits")` fails the k assertion |
| `Results.GetMetricAgreesWithFlatDict` | src/pykeen/evaluation/rank_based_evaluator.py:244-253 | for every name `lookup` accepts, `get_metric` succeeds exactly when the flat dictionary has the entry, and then returns it |
| `Evaluator.GetRanks` | src/pykeen/evaluation/rank_based_evaluator.py:339-346 | definition of `_get_ranks`, no contract of its own; characterised by `AppendedPooledRanks`, `PooledRanksGrowAtHead` and `PooledRanksGrowAtTail` |
| `Evaluator.Appended` | src/pykeen/evaluation/rank_based_evaluator.py:336-337 | definition of the buffer update of `process_scores_`, no contract of its own; characterised by `AppendedBuffers` and used in the `ensures` of `RankBasedEvaluator.ProcessScores` |
| `Evaluator.AppendedBuffers` | src/pykeen/evaluation/rank_based_evaluator.py:336-337 | processing a batch extends each buffer of the target by the batch's ranks of that type, and leaves every other buffer unchanged |
| `Evaluator.AppendedPooledRanks` | src/pykeen/evaluation/rank_based_evaluator.py:339-346 | after a batch, the target's pool grows by the batch's ranks; the `both` pool keeps head before tail and grows by the same multiset |
| `Evaluator.PooledRanksGrowAtHead` | src/pykeen/evaluation/rank_based_evaluator.py:340-343 | the `both` pool is the head buffer followed by the tail buffer, so new head ranks land between them |
| `Evaluator.PooledRanksGrowAtTail` | src/pykeen/evaluation/rank_based_evaluator.py:340-343 | new tail ranks are appended at the end of the `both` pool |
| `Evaluator.HitsFraction` | src/pykeen/evaluation/rank_based_evaluator.py:359-361 | `np.mean(ranks <= bound)` lies in [0, 1] |
| `Evaluator.HitsFractionProperties` | src/pykeen/evaluation/rank_based_evaluator.py:359-361 | hits@k never decreases as the bound grows, is 1 once the bound reaches every rank and is 0 for a bound below 1 |
| `Evaluator.FractionThreshold` | src/pykeen/evaluation/rank_based_evaluator.py:360 | a float k in (0, 1) gives the bound `int(num_entities * k)`, which is non-negative, and below num_entities when num_entities is positive |
| `Evaluator.PairsListed` | src/pykeen/evaluation/rank_based_evaluator.py:355 | the loop visits exactly the pairs of a side and a base rank type |
| `Evaluator.PairsAt` | src/pykeen/evaluation/rank_based_evaluator.py:355 | the loop visits the pairs in product order: side-major, then rank type |
| `Evaluator.FoldPairsFailure` | src/pykeen/evaluation/rank_based_evaluator.py:355-376 | the loop raises exactly when some iteration raises |
| `Evaluator.FoldPairsMetric` | src/pykeen/evaluation/rank_based_evaluator.py:355-363 | a metric entry of the table exists exactly when its pair is visited and its iteration produced the metric, and it holds that value |
| `Evaluator.FoldPairsHit` | src/pykeen/evaluation/rank_based_evaluator.py:355-361 | the same for hits@k entries |
| `Evaluator.MergeMetric` | src/pykeen/evaluation/rank_based_evaluator.py:362-363 | writing one pool's entries sets exactly that pool's metrics and keeps every other entry |
| `Evaluator.MergeHit` | src/pykeen/evaluation/rank_based_evaluator.py:359-361 | writing one pool's hits@k sets exactly that pool's hits and keeps every other entry |
| `Evaluator.PairResult` | src/pykeen/evaluation/rank_based_evaluator.py:355-376 | definition of one iteration of the `finalize` loop, no contract of its own; characterised by `PairFails`, `PairContents` and `PairAdjusted`, and the loop body `RankBasedEvaluator.FinalizePair` is proved equal to it |
| `Evaluator.PairFails` | src/pykeen/evaluation/rank_based_evaluator.py:365-376 | one iteration raises exactly when its pool and its expected pool are non-empty and the expected mean rank is 1, and then with the ZeroDivisionError |
| `Evaluator.PairContents` | src/pykeen/evaluation/rank_based_evaluator.py:357-363 | an empty pool contributes nothing; a non-empty pool contributes hits@k for each k and every statistic of `get_ranking_metrics` |
| `Evaluator.PairAdjusted` | src/pykeen/evaluation/rank_based_evaluator.py:365-376 | AAMR and AAMRI are present exactly for a non-empty realistic pool whose expected pool is non-empty, with AAMR = MR / em and AAMRI = 1 - (MR - 1)/(em - 1) |
| `Evaluator.FinalizeSpec` | src/pykeen/evaluation/rank_based_evaluator.py:348-397 | definition of `finalize` as a fold over the nine pairs, no contract of its own; characterised by `FinalizeFailures`, `FinalizeError`, `FinalizeTable` and `FinalizeAdjusted`, and `RankBasedEvaluator.Finalize` is proved equal to it |
| `Evaluator.FinalizeFailures` | src/pykeen/evaluation/rank_based_evaluator.py:348-376 | `finalize` raises without `num_entities`; otherwise it raises exactly when some side's realistic expected mean rank is 1 |
| `Evaluator.FinalizeError` | src/pykeen/evaluation/rank_based_evaluator.py:370-376 | the error `finalize` raises with `num_entities` set is the ZeroDivisionError of such a side |
| `Evaluator.FinalizeTable` | src/pykeen/evaluation/rank_based_evaluator.py:355-363 | in the table of a successful `finalize`: no entries for an empty pool or the expected rank type; otherwise every statistic of the pool, hits@k exactly for the configured ks, each the fraction of ranks within its bound and in [0, 1] |
| `Evaluator.FinalizeAdjusted` | src/pykeen/evaluation/rank_based_evaluator.py:365-376 | in that table, AAMR and AAMRI are present exactly when the realistic and expected pools are non-empty, with the values above |
| `Evaluator.RankBasedEvaluator.constructor` | src/pykeen/evaluation/rank_based_evaluator.py:311-318 | a new evaluator has the given ks, empty buffers and no `num_entities` |
| `Evaluator.RankBasedEvaluator.Create` | src/pykeen/evaluation/rank_based_evaluator.py:291-318 | ks default to (1, 3, 5, 10); creation succeeds exactly when every float k lies in (0, 1), and otherwise names the first one that does not |
| `Evaluator.RankBasedEvaluator.ProcessScores` | src/pykeen/evaluation/rank_based_evaluator.py:320-337 | without true scores it raises and changes nothing; otherwise the buffers become `Appended` of the batch's ranks and `num_entities` the score width |
| `Evaluator.RankBasedEvaluator.FinalizePair` | src/pykeen/evaluation/rank_based_evaluator.py:356-376 | the loop body for one pair computes that pair's outcome |
| `Evaluator.RankBasedEvaluator.Finalize` | src/pykeen/evaluation/rank_based_evaluator.py:348-397 | the result is `FinalizeSpec` of the old state; on success the buffers are cleared, on failure nothing changes |
| `MacroEvaluator.GetKeys` | src/pykeen/evaluation/rank_based_evaluator.py:570-580 | definition of `_get_keys`, no contract of its own; characterised by `AlignedPreserved` and `AlignedPools` |
| `MacroEvaluator.AppendKeys` | src/pykeen/evaluation/rank_based_evaluator.py:566-568 | definition of the key update of `process_scores_`, no contract of its own; used in the `ensures` of `MacroRankBasedEvaluator.ProcessScores` and characterised by `BatchKeys` and `AlignedPreserved` |
| `MacroEvaluator.BatchKeys` | src/pykeen/evaluation/rank_based_evaluator.py:566-568 | each observation's key is the two columns other than the target, in batch order |
| `MacroEvaluator.MacroWeights` | src/pykeen/evaluation/rank_based_evaluator.py:592-594 | there is one weight per observation |
| `MacroEvaluator.MacroWeightAt` | src/pykeen/evaluation/rank_based_evaluator.py:592-594 | each observation's weight is one over the number of observations with its key |
| `MacroEvaluator.MacroWeightsPerKey` | src/pykeen/evaluation/rank_based_evaluator.py:590-594 | the weights of the observations of each key sum to 1 |
| `MacroEvaluator.MacroWeightsValid` | src/pykeen/evaluation/rank_based_evaluator.py:592-594 | the weights of a non-empty key list lie in (0, 1] and have a positive total |
| `MacroEvaluator.MacroWeightAtMostHalf` | src/pykeen/evaluation/rank_based_evaluator.py:590-594 | among two or more observations, no weight exceeds half the total weight |
| `MacroEvaluator.MacroWeightedMedianFails` | src/pykeen/evaluation/metrics.py:157-165 | with the macro weights of a pool's keys, `weighted_median` is out of range exactly when the pool holds one observation |
| `MacroEvaluator.MacroHitsFraction` | src/pykeen/evaluation/rank_based_evaluator.py:602-607 | weighted hits@k lies in [0, 1] |
| `MacroEvaluator.MacroHitsOfOnes` | src/pykeen/evaluation/rank_based_evaluator.py:602-607 | with all-ones weights, weighted hits@k is the plain hits@k of the rank-based evaluator |
| `MacroEvaluator.AlignedPreserved` | src/pykeen/evaluation/rank_based_evaluator.py:559-568 | processing a batch keeps every rank pool as long as its key list |
| `MacroEvaluator.AlignedPools` | src/pykeen/evaluation/rank_based_evaluator.py:570-599 | with aligned buffers, each pool has as many ranks as its side has keys, so the shape assertion holds |
| `MacroEvaluator.MacroPairResult` | src/pykeen/evaluation/rank_based_evaluator.py:597-611 | definition of one iteration of the inner `finalize` loop, no contract of its own; characterised by `MacroPairOutcome`, `MacroPairValue`, `MacroPairError`, `MacroPairMetricsContents` and `MacroPairHitsContents` |
| `MacroEvaluator.MacroPairOutcome` | src/pykeen/evaluation/rank_based_evaluator.py:598-611 | one iteration raises exactly when its shapes differ or its weighted median is out of range |
| `MacroEvaluator.MacroPairValue` | src/pykeen/evaluation/rank_based_evaluator.py:598-611 | otherwise an empty pool contributes nothing, and a non-empty one its macro statistics and weighted hits@k |
| `MacroEvaluator.MacroPairError` | src/pykeen/evaluation/rank_based_evaluator.py:599-608 | a failing iteration raises the shape assertion exactly when the lengths differ, and otherwise the weighted median's IndexError |
| `MacroEvaluator.MacroPairMetricsContents` | src/pykeen/evaluation/rank_based_evaluator.py:608-611 | a non-empty pool contributes exactly the keys of ALL_TYPE_FUNCS, valued as `get_macro_ranking_metrics` yields them |
| `MacroEvaluator.MacroPairHitsContents` | src/pykeen/evaluation/rank_based_evaluator.py:602-607 | a non-empty pool contributes weighted hits@k exactly for the configured ks, in [0, 1] |
| `MacroEvaluator.MacroFinalizeSpec` | src/pykeen/evaluation/rank_based_evaluator.py:582-614 | definition of the macro `finalize` as a fold over the nine pairs, no contract of its own; characterised by `MacroFinalizeFailures`, `MacroFinalizeSucceeded`, `MacroFinalizeTable`, `MacroFinalizeHits`, `AlignedFinalizeErrors` and `AlignedFinalizeFailures` |
| `MacroEvaluator.MacroFinalizeFailures` | src/pykeen/evaluation/rank_based_evaluator.py:582-611 | the macro `finalize` raises without `num_entities`; otherwise it raises exactly when some pair of a side and base rank type fails |
| `MacroEvaluator.MacroFinalizeSucceeded` | src/pykeen/evaluation/rank_based_evaluator.py:582-611 | after a successful macro `finalize`, no pair of a side and base rank type failed |
| `MacroEvaluator.MacroFinalizeTable` | src/pykeen/evaluation/rank_based_evaluator.py:589-612 | in the macro table: nothing for an empty pool; otherwise exactly the macro statistics of the pool; never AAMR or AAMRI |
| `MacroEvaluator.MacroFinalizeHits` | src/pykeen/evaluation/rank_based_evaluator.py:602-613 | the macro table's hits@k are exactly the configured ks of each non-empty pool, weighted and in [0, 1] |
| `MacroEvaluator.AlignedFinalizeErrors` | src/pykeen/evaluation/rank_based_evaluator.py:589-611 | with aligned buffers, the only error the macro `finalize` can raise with `num_entities` set is the weighted median's IndexError |
| `MacroEvaluator.AlignedFinalizeFailures` | src/pykeen/evaluation/rank_based_evaluator.py:589-611 | with aligned buffers and `num_entities` set, the macro `finalize` raises exactly when some pool of a side and base rank type holds exactly one observation |
| `MacroEvaluator.MacroRankBasedEvaluator.constructor` | src/pykeen/evaluation/rank_based_evaluator.py:555-557 | a new macro evaluator wraps the given rank-based state with empty key buffers |
| `MacroEvaluator.MacroRankBasedEvaluator.Create` | src/pykeen/evaluation/rank_based_evaluator.py:555-557 | creation fails exactly as the rank-based validation of ks does; on success it has fresh empty buffers |
| `MacroEvaluator.MacroRankBasedEvaluator.ProcessScores` | src/pykeen/evaluation/rank_based_evaluator.py:559-568 | the rank-based processing, then the batch's keys appended to the target's key buffer; without true scores nothing changes |
| `MacroEvaluator.MacroRankBasedEvaluator.FinalizePair` | src/pykeen/evaluation/rank_based_evaluator.py:597-611 | the inner loop body computes the outcome of one pair |
| `MacroEvaluator.MacroRankBasedEvaluator.FinalizeStep` | src/pykeen/evaluation/rank_based_evaluator.py:597-611 | one iteration extends the fold of the pairs visited so far, and an error is the final result |
| `MacroEvaluator.MacroRankBasedEvaluator.FinalizeSide` | src/pykeen/evaluation/rank_based_evaluator.py:589-611 | the three iterations of one side extend the table of the earlier sides, and an error raised there is the final result |
| `MacroEvaluator.MacroRankBasedEvaluator.Finalize` | src/pykeen/evaluation/rank_based_evaluator.py:582-614 | the result is `MacroFinalizeSpec` of the state, and the buffers are not cleared |
| `Sampling.MaxEntity` | src/pykeen/evaluation/rank_based_evaluator.py:425 | the largest head or tail id of the filter triples |
| `Sampling.CandidateCount` | src/pykeen/evaluation/rank_based_evaluator.py:425 | definition of `num_entities or (max + 1)`, no contract of its own; characterised by `FallbackCoversFilter` |
| `Sampling.FallbackCoversFilter` | src/pykeen/evaluation/rank_based_evaluator.py:425 | a missing or zero `num_entities` falls back to one more than the largest id: it fails exactly on no filter triples, is more than every head and tail id, and equals one more than some id, so no smaller count covers them |
| `Sampling.Pool` | src/pykeen/evaluation/rank_based_evaluator.py:431-439 | the pool holds exactly the entities in range that no filter triple of the key names as an answer |
| `Sampling.CeilDiv` | src/pykeen/evaluation/rank_based_evaluator.py:445 | `math.ceil(a / b)`: the least multiplier that reaches a |
| `Sampling.RepeatCounts` | src/pykeen/evaluation/rank_based_evaluator.py:445 | `c * pool` holds each element c times as often as the pool |
| `Sampling.Population` | src/pykeen/evaluation/rank_based_evaluator.py:439-445 | definition of the (possibly repeated) pool a group draws from, no contract of its own; characterised by `PopulationSize` and `PopulationMembers` |
| `Sampling.PopulationSize` | src/pykeen/evaluation/rank_based_evaluator.py:439-445 | the population fails exactly for an empty pool with samples asked for, has at least `num_samples` entities, and is the pool itself when that is large enough |
| `Sampling.PopulationMembers` | src/pykeen/evaluation/rank_based_evaluator.py:439-445 | the population has the pool's members, and a short pool is repeated ceil(num_samples / \|pool\|) times |
| `Sampling.DrawRow` | src/pykeen/evaluation/rank_based_evaluator.py:439-450 | a group's row is `num_samples` entities at distinct positions of its population, or the ZeroDivisionError of an empty pool |
| `Sampling.SampleSide` | src/pykeen/evaluation/rank_based_evaluator.py:433-451 | one side's table has a row per evaluation triple, each grouped row a draw; it fails exactly when some grouped triple's pool is empty while samples are asked for |
| `Sampling.SampledTable` | src/pykeen/evaluation/rank_based_evaluator.py:432-451 | definition of what a side's table holds after sampling, a predicate with no contract of its own; used in the `ensures` of `SampleSide` and `SampleNegatives` and characterised by `DrawnFromPool`, `DrawnAreTrueNegatives` and `DrawsDistinct` |
| `Sampling.SampleNegatives` | src/pykeen/evaluation/rank_based_evaluator.py:400-452 | a table for each of head and tail as `SampledTable` describes, or the first error raised |
| `Sampling.DrawnFromPool` | src/pykeen/evaluation/rank_based_evaluator.py:446-450 | each drawn entity is in the pool |
| `Sampling.DrawnAreTrueNegatives` | src/pykeen/evaluation/rank_based_evaluator.py:439-450 | each drawn entity is an id in range that forms no filter triple with the triple's key |
| `Sampling.DrawsDistinct` | src/pykeen/evaluation/rank_based_evaluator.py:446-450 | when the pool is not short, a row never repeats an entity |
| `Sampling.SampleFailsOnlyForEmptyPools` | src/pykeen/evaluation/rank_based_evaluator.py:440-445 | with a non-zero entity count, sampling fails only when samples are asked for and some grouped triple's pool is empty |
| `SampledEvaluator.NumNegatives` | src/pykeen/evaluation/rank_based_evaluator.py:490 | `num_negatives or 50`: a given non-zero count is kept, otherwise 50 |
| `SampledEvaluator.TripleIndex` | src/pykeen/evaluation/rank_based_evaluator.py:515 | the index holds exactly the evaluation triples, each mapped to a row where it occurs |
| `SampledEvaluator.TripleIndexIsLast` | src/pykeen/evaluation/rank_based_evaluator.py:515 | a triple listed more than once keeps the row of its last occurrence |
| `SampledEvaluator.BatchIndices` | src/pykeen/evaluation/rank_based_evaluator.py:532 | the rows of a batch's triples, in batch order |
| `SampledEvaluator.BatchIndicesFailure` | src/pykeen/evaluation/rank_based_evaluator.py:532 | the lookup raises KeyError exactly for a batch with an unknown triple, and names the first one |
| `SampledEvaluator.SampledScores` | src/pykeen/evaluation/rank_based_evaluator.py:528-539 | definition of the narrowed score matrix, no contract of its own; characterised by `SampledScoresContents` and `SampledScoresSucceeds` |
| `SampledEvaluator.SampledScoresContents` | src/pykeen/evaluation/rank_based_evaluator.py:530-539 | the narrowed matrix has one row per triple: the true score, then at column 1 + j the score of the triple's j-th negative |
| `SampledEvaluator.SampledScoresSucceeds` | src/pykeen/evaluation/rank_based_evaluator.py:532-539 | narrowing succeeds exactly when every triple is known, the ids are valid columns and the true scores match the batch |
| `SampledEvaluator.NegativesFailure` | src/pykeen/evaluation/rank_based_evaluator.py:487-514 | definition of the constructor's error checks in source order, no contract of its own; characterised by `NegativesFailureCases` |
| `SampledEvaluator.NegativesFailureCases` | src/pykeen/evaluation/rank_based_evaluator.py:488-514 | the constructor rejects too many negatives, one table without the other and a table of the wrong height, and sampling fails only on an empty pool |
| `SampledEvaluator.SampledIdsAreColumns` | src/pykeen/evaluation/rank_based_evaluator.py:497-537 | when the evaluation triples are among the filter triples, every sampled id is a column of the full score matrix and a true negative |
| `SampledEvaluator.SampledRankBasedEvaluator.constructor` | src/pykeen/evaluation/rank_based_evaluator.py:515-517 | a new sampled evaluator holds the given rank-based state, negatives and triple index |
| `SampledEvaluator.SampledRankBasedEvaluator.Create` | src/pykeen/evaluation/rank_based_evaluator.py:465-517 | the ks validation first, then exactly the failures of `NegativesFailure`; on success both tables, sampled as `SampledTable` says when none is given, the triple index, empty buffers and `num_entities` set |
| `SampledEvaluator.SampledRankBasedEvaluator.ProcessScores` | src/pykeen/evaluation/rank_based_evaluator.py:519-549 | without true scores or on a failed narrowing nothing changes; otherwise the narrowed scores are ranked and appended, and `num_entities` is put back to the full score width |
| `SampledEvaluator.SampledRankBasedEvaluator.Finalize` | src/pykeen/evaluation/rank_based_evaluator.py:348-397 | the inherited `finalize`, which never raises for a missing `num_entities` |

## Left out

- `Ranks.from_scores` is a parameter of type `Ranker`. Its ranks are assumed to be reals of at least 1. The module that defines it is not part of this model.
- The Evaluator base class is not part of this model. Its `filtered` and `requires_positive_mask` options have no effect in these files.
- The constants of `pykeen.typing` are given values, because that module is not part of this model:
  - SIDES = (head, tail, both) and RANK_TYPES = (optimistic, realistic, pessimistic);
  - RANK_TYPE_SYNONYMS = {best: optimistic, worst: pessimistic, avg: realistic, average: realistic};
  - EXPECTED_RANKS maps only realistic to expected_realistic.
- `prepare_filter_triples` is not part of this model. The filter triples are taken as its result.
- Floating point is modelled as exact reals. There is no rounding, no overflow and no IEEE NaN; NaN is the sentinel `Value.NaN`.
- `stats.gmean`, its weighted form and `np.sqrt` are kept symbolic (`GeometricMean`, `InverseGeometricMean`, `Sqrt`), because they need roots and logarithms.
- `np.argsort` is modelled by a stable sort. Numpy's default sort is not stable, so ties between equal ranks with different weights may be ordered differently. The order of a tie changes the value of `weighted_median`:
  - Ranks `[1, 1, 2]` with the macro weights `(1, 0.5, 0.5)` give 1 in stable order (cumulative sums 0, 0.5, 0.75, 1). With the tie swapped, the sums are 0, 0.25, 0.75, 1 and the result is 2.
  - For general weights the order even decides whether the index is out of range. Ranks `[1, 1]` with weights `[0.9, 0.1]` give 1 in stable order and an IndexError with the tie swapped.
  - The macro failure condition does not depend on the order: `MacroEvaluator.MacroWeightAtMostHalf` bounds every weight by half the total, not only the weight sorted last. So with two or more observations the index is in range in any order, and a single observation is out of range in any order.
- Dictionary iteration order is not modelled:
  - `_iter_rows` is the set of rows;
  - the result table is a map keyed by its whole path.
- `to_flat_dict` is keyed by (side, rank type, column) rather than by the formatted string. Python's `str` of a float k is not modelled.
- Empty inner dictionaries of the Python result (for example, no AAMR entries) are not distinguished from absent ones. Both read as the same KeyError.
- `to_df`, logging, the `RANKING_METRICS` metadata table and the `get_metric` docstring are not modelled.
- `random.sample` is a nondeterministic choice of distinct positions.
  - The pool is listed in ascending order. Any order allows the same rows.
  - pandas `merge`/`groupby` become comprehensions over the filter triples, with no order of groups.
- Rows of `torch.empty` for triples without a group are left arbitrary.
- `math.ceil(num_samples / len(pool))` is computed exactly.
- Entity ids are unbounded integers. 64-bit `torch.long` is not modelled.
- Negative `num_samples` and `num_negatives` are not modelled. Both are natural numbers.
- Tensors are assumed rectangular. This is the `WellShaped` and `Rectangular` preconditions.
- Devices, `.cpu()`, `.detach()` and `tolist()` are not modelled.
- `isinstance(k, float)` becomes the two constructors of `HitsK`.
- Text.Lower: maps only the ASCII letters A-Z. Python's `str.lower` also lower-cases non-ASCII letters (the Kelvin sign U+212A becomes `k`); Unicode case tables are not modelled. `MetricKeys.Lookup` inherits this.
- Text.NameRun: `\w` covers only the ASCII letters, digits and `_`. Python's `\w` on `str` also matches non-ASCII letters and digits, so a name such as `"hits_at_\u212A"` is matched further by Python than by `MetricKeys.MatchPattern`.
- Text.DigitRun: `\d` covers only `0`-`9`. Python's `\d` on `str` matches every Unicode decimal digit (`"hits@\u0665"` gives k = 5 in Python), and `int` reads them. The model reads only ASCII digits.
- `src/pykeen/models/base.py` is not modelled. It is model plumbing that the evaluation core does not call.
- The Python evaluator classes extend `RankBasedEvaluator`. In the model, the macro and sampled evaluators hold one instead and forward to it.
- `SampledEvaluator.SampledRankBasedEvaluator.Create`: on an invalid ks it states only that the error names an invalid k of the list, not which one. `Evaluator.RankBasedEvaluator.Create` names the first.
- `MacroEvaluator.MacroRankBasedEvaluator.Create`: it states that failure happens exactly on an invalid ks, but not which error value is returned. That value is the one from `Evaluator.RankBasedEvaluator.Create`.
