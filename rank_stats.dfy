/**
 * The rank reductions of metrics.py: the registry of per-rank-list statistics (`ALL_TYPE_FUNCS`,
 * `get_ranking_metrics`), the weighted median, and the weighted ("macro") statistics.
 * Reals stand for floats; the geometric mean and the square root are kept symbolic.
 */
module RankStats {
  import opened Wrappers
  import opened Numeric

  /** A rank as the ranking collaborator produces it: a real number, at least 1. */
  type Rank = r: real | r >= 1.0 witness 1.0

  /** The metric names a result table is keyed by (metrics.py, lines 18-31). */
  datatype Metric =
    | ArithmeticMeanRank | GeometricMeanRank | HarmonicMeanRank | MedianRank
    | InverseArithmeticMeanRank | InverseGeometricMeanRank | InverseHarmonicMeanRank | InverseMedianRank
    | AdjustedArithmeticMeanRank | AdjustedArithmeticMeanRankIndex
    | RankStd | RankVariance | RankMad | RankCount

  function MetricName(m: Metric): string {
    match m
    case ArithmeticMeanRank => "arithmetic_mean_rank"
    case GeometricMeanRank => "geometric_mean_rank"
    case HarmonicMeanRank => "harmonic_mean_rank"
    case MedianRank => "median_rank"
    case InverseArithmeticMeanRank => "inverse_arithmetic_mean_rank"
    case InverseGeometricMeanRank => "inverse_geometric_mean_rank"
    case InverseHarmonicMeanRank => "inverse_harmonic_mean_rank"
    case InverseMedianRank => "inverse_median_rank"
    case AdjustedArithmeticMeanRank => "adjusted_arithmetic_mean_rank"
    case AdjustedArithmeticMeanRankIndex => "adjusted_arithmetic_mean_rank_index"
    case RankStd => "rank_std"
    case RankVariance => "rank_var"
    case RankMad => "rank_mad"
    case RankCount => "rank_count"
  }

  /** The metric a result-table key names, if any. */
  function MetricOfName(s: string): (r: Option<Metric>)
    ensures r.Some? ==> MetricName(r.value) == s
    ensures r.None? ==> forall m: Metric :: MetricName(m) != s
  {
    if s == "arithmetic_mean_rank" then Some(ArithmeticMeanRank)
    else if s == "geometric_mean_rank" then Some(GeometricMeanRank)
    else if s == "harmonic_mean_rank" then Some(HarmonicMeanRank)
    else if s == "median_rank" then Some(MedianRank)
    else if s == "inverse_arithmetic_mean_rank" then Some(InverseArithmeticMeanRank)
    else if s == "inverse_geometric_mean_rank" then Some(InverseGeometricMeanRank)
    else if s == "inverse_harmonic_mean_rank" then Some(InverseHarmonicMeanRank)
    else if s == "inverse_median_rank" then Some(InverseMedianRank)
    else if s == "adjusted_arithmetic_mean_rank" then Some(AdjustedArithmeticMeanRank)
    else if s == "adjusted_arithmetic_mean_rank_index" then Some(AdjustedArithmeticMeanRankIndex)
    else if s == "rank_std" then Some(RankStd)
    else if s == "rank_var" then Some(RankVariance)
    else if s == "rank_mad" then Some(RankMad)
    else if s == "rank_count" then Some(RankCount)
    else None
  }

  /** Distinct metrics have distinct names. */
  lemma MetricNameInjective(m1: Metric, m2: Metric)
    ensures MetricName(m1) == MetricName(m2) ==> m1 == m2
  {
    MetricOfNameOfMetricName(m1);
    MetricOfNameOfMetricName(m2);
  }

  /** Looking a metric's name up gives the metric back. */
  lemma MetricOfNameOfMetricName(m: Metric)
    ensures MetricOfName(MetricName(m)) == Some(m)
  {
    var r := MetricOfName(MetricName(m));
    assert r.Some?;
  }

  /** The keys of `ALL_TYPE_FUNCS`, in their order (metrics.py, lines 132-146). */
  const ALL_TYPE_FUNCS: seq<Metric> := [
    ArithmeticMeanRank, HarmonicMeanRank, GeometricMeanRank, MedianRank,
    InverseArithmeticMeanRank, InverseGeometricMeanRank, InverseHarmonicMeanRank, InverseMedianRank,
    RankStd, RankVariance, RankMad, RankCount]

  /** The adjusted metrics are the only ones the registry does not compute. */
  predicate IsTypeFunc(m: Metric) {
    !m.AdjustedArithmeticMeanRank? && !m.AdjustedArithmeticMeanRankIndex?
  }

  lemma TypeFuncsListed(m: Metric)
    ensures m in ALL_TYPE_FUNCS <==> IsTypeFunc(m)
  {
  }

  /** A statistic's value: a number, a count, the NaN sentinel, or a root or geometric mean left symbolic. */
  datatype Value =
    | Num(x: real)
    | Count(n: nat)
    | NaN
    | Sqrt(radicand: real)
    | GeometricMean(ranks: seq<real>, weights: seq<real>)
    | InverseGeometricMean(ranks: seq<real>, weights: seq<real>)

  // ---------------------------------------------------------------------------
  // Unweighted statistics.

  function Mean(s: seq<real>): real
    requires |s| > 0
  {
    Sum(s) / |s| as real
  }

  lemma MeanBounds(s: seq<real>, lo: real, hi: real)
    requires |s| > 0 && AllAtLeast(s, lo) && AllAtMost(s, hi)
    ensures lo <= Mean(s) <= hi
  {
    SumBounds(s, lo, hi);
  }

  lemma MeanLowerBound(s: seq<real>, lo: real)
    requires |s| > 0 && AllAtLeast(s, lo)
    ensures Mean(s) >= lo
  {
    SumLowerBound(s, lo);
  }

  /** `np.mean` of ranks is itself at least 1. */
  function RankMean(r: seq<Rank>): (m: real)
    requires |r| > 0
    ensures m >= 1.0
  {
    MeanLowerBound(r, 1.0);
    Mean(r)
  }

  /** `np.reciprocal` of each rank: values in (0, 1]. */
  function Reciprocals(r: seq<Rank>): (q: seq<real>)
    ensures |q| == |r|
    ensures forall i :: 0 <= i < |r| ==> q[i] * r[i] == 1.0
    ensures AllAtLeast(q, 0.0) && AllAtMost(q, 1.0)
  {
    seq(|r|, i requires 0 <= i < |r| => 1.0 / (r[i] as real))
  }

  lemma {:induction false} ReciprocalSumPositive(r: seq<Rank>)
    requires |r| > 0
    ensures Sum(Reciprocals(r)) > 0.0
  {
    var q := Reciprocals(r);
    var n := |q| - 1;
    assert q[..n] == Reciprocals(r[..n]);
    if n > 0 {
      ReciprocalSumPositive(r[..n]);
    }
    assert q[n] > 0.0;
  }

  /** The sum of the reciprocal ranks lies in (0, |r|]. */
  lemma ReciprocalSumBounds(r: seq<Rank>)
    requires |r| > 0
    ensures 0.0 < Sum(Reciprocals(r)) <= |r| as real
  {
    SumBounds(Reciprocals(r), 0.0, 1.0);
    ReciprocalSumPositive(r);
  }

  /** `stats.hmean`: the count over the sum of reciprocals, itself at least 1. */
  function HarmonicMean(r: seq<Rank>): (h: real)
    requires |r| > 0
    ensures h >= 1.0
  {
    ReciprocalSumBounds(r);
    InverseOfFraction(Sum(Reciprocals(r)), |r| as real);
    |r| as real / Sum(Reciprocals(r))
  }

  /** `np.median`: the middle of the sorted values, or the mean of the two middle ones. */
  function Median(s: seq<real>): real
    requires |s| > 0
  {
    Middle(Sorted(s))
  }

  /** The middle element of an odd-length sequence, or the mean of the two middle ones. */
  function Middle(t: seq<real>): real
    requires |t| > 0
  {
    var n := |t|;
    if n % 2 == 1 then t[n / 2] else (t[n / 2 - 1] + t[n / 2]) / 2.0
  }

  /** The median lies within any bounds of the values. */
  lemma MedianBounds(s: seq<real>, lo: real, hi: real)
    requires |s| > 0 && AllAtLeast(s, lo) && AllAtMost(s, hi)
    ensures lo <= Median(s) <= hi
  {
    PermutationBounds(s, Sorted(s), lo, hi);
  }

  lemma MedianLowerBound(s: seq<real>, lo: real)
    requires |s| > 0 && AllAtLeast(s, lo)
    ensures Median(s) >= lo
  {
    var t := Sorted(s);
    forall i | 0 <= i < |t| ensures t[i] >= lo {
      assert t[i] in multiset(t);
      assert t[i] in s;
    }
  }

  function RankMedian(r: seq<Rank>): (m: real)
    requires |r| > 0
    ensures m >= 1.0
  {
    MedianLowerBound(r, 1.0);
    Median(r)
  }

  function SquaredDeviations(s: seq<real>, c: real): (d: seq<real>)
    ensures |d| == |s| && AllAtLeast(d, 0.0)
  {
    var d := seq(|s|, i requires 0 <= i < |s| => Square(s[i] - c));
    assert forall i :: 0 <= i < |d| ==> d[i] == Square(s[i] - c);
    d
  }

  function Square(x: real): (y: real)
    ensures y >= 0.0
  {
    if x >= 0.0 then MulMonotone(0.0, x, x); x * x
    else MulMonotone(0.0, -x, -x); x * x
  }

  function AbsoluteDeviations(s: seq<real>, c: real): (d: seq<real>)
    ensures |d| == |s| && AllAtLeast(d, 0.0)
  {
    seq(|s|, i requires 0 <= i < |s| => if s[i] >= c then s[i] - c else c - s[i])
  }

  /** `np.var`: the population variance. */
  function Variance(s: seq<real>): real
    requires |s| > 0
  {
    Mean(SquaredDeviations(s, Mean(s)))
  }

  /** `stats.median_abs_deviation` with its defaults: the median distance from the median. */
  function MedianAbsoluteDeviation(s: seq<real>): (d: real)
    requires |s| > 0
    ensures d >= 0.0
  {
    var deviations := AbsoluteDeviations(s, Median(s));
    MedianLowerBound(deviations, 0.0);
    Median(deviations)
  }

  /** The value one entry of `ALL_TYPE_FUNCS` computes from a non-empty rank list. */
  function Reduce(m: Metric, r: seq<Rank>): Value
    requires |r| > 0 && IsTypeFunc(m)
  {
    match m
    case ArithmeticMeanRank => Num(RankMean(r))
    case HarmonicMeanRank => Num(HarmonicMean(r))
    case GeometricMeanRank => GeometricMean(r, Constant(|r|, 1.0))
    case MedianRank => Num(RankMedian(r))
    case InverseArithmeticMeanRank => Num(1.0 / RankMean(r))
    case InverseGeometricMeanRank => InverseGeometricMean(r, Constant(|r|, 1.0))
    case InverseHarmonicMeanRank => Num(1.0 / HarmonicMean(r))
    case InverseMedianRank => Num(1.0 / RankMedian(r))
    case RankStd => Sqrt(Variance(r))
    case RankVariance => Num(Variance(r))
    case RankMad => Num(MedianAbsoluteDeviation(r))
    case RankCount => Count(|r|)
  }

  /** The dictionary `get_ranking_metrics` returns: one entry per key of `ALL_TYPE_FUNCS`. */
  function RankingMetrics(r: seq<Rank>): (rv: map<Metric, Value>)
    requires |r| > 0
    ensures forall m :: m in rv <==> IsTypeFunc(m)
  {
    assert ALL_TYPE_FUNCS[..|ALL_TYPE_FUNCS|] == ALL_TYPE_FUNCS;
    PartialRankingMetrics(r, |ALL_TYPE_FUNCS|)
  }

  /** The dictionary after the first `n` registry entries have been computed. */
  function PartialRankingMetrics(r: seq<Rank>, n: nat): (rv: map<Metric, Value>)
    requires |r| > 0 && n <= |ALL_TYPE_FUNCS|
    ensures forall m :: m in rv <==> m in ALL_TYPE_FUNCS[..n]
  {
    map m | m in ALL_TYPE_FUNCS[..n] :: Reduce(m, r)
  }

  /** Computing the next registry entry extends the partial dictionary by that entry. */
  lemma PartialRankingMetricsStep(r: seq<Rank>, n: nat)
    requires |r| > 0 && n < |ALL_TYPE_FUNCS|
    ensures PartialRankingMetrics(r, n + 1)
      == PartialRankingMetrics(r, n)[ALL_TYPE_FUNCS[n] := Reduce(ALL_TYPE_FUNCS[n], r)]
  {
    assert ALL_TYPE_FUNCS[..n + 1] == ALL_TYPE_FUNCS[..n] + [ALL_TYPE_FUNCS[n]];
  }

  /** `get_ranking_metrics` (metrics.py, lines 149-154): fills the dictionary one registry entry at a time. */
  method GetRankingMetrics(r: seq<Rank>) returns (rv: map<Metric, Value>)
    requires |r| > 0
    ensures rv == RankingMetrics(r)
  {
    rv := map[];
    var i := 0;
    while i < |ALL_TYPE_FUNCS|
      invariant 0 <= i <= |ALL_TYPE_FUNCS|
      invariant rv == PartialRankingMetrics(r, i)
    {
      var m := ALL_TYPE_FUNCS[i];
      PartialRankingMetricsStep(r, i);
      rv := rv[m := Reduce(m, r)];
      i := i + 1;
    }
  }

  lemma RankingMetricsAt(r: seq<Rank>, m: Metric)
    requires |r| > 0 && IsTypeFunc(m)
    ensures RankingMetrics(r)[m] == Reduce(m, r)
  {
    TypeFuncsListed(m);
  }

  /** The arithmetic mean rank entry holds the plain mean of the ranks. */
  lemma RankingMetricsMeanRank(r: seq<Rank>)
    requires |r| > 0
    ensures RankingMetrics(r)[ArithmeticMeanRank] == Num(RankMean(r))
  {
    RankingMetricsAt(r, ArithmeticMeanRank);
  }

  /** Each `inverse_*` entry is the reciprocal of its base entry. */
  lemma RankingMetricsInverses(r: seq<Rank>)
    requires |r| > 0
    ensures var rv := RankingMetrics(r);
      && rv[ArithmeticMeanRank].Num? && rv[InverseArithmeticMeanRank] == Num(1.0 / rv[ArithmeticMeanRank].x)
      && rv[HarmonicMeanRank].Num? && rv[InverseHarmonicMeanRank] == Num(1.0 / rv[HarmonicMeanRank].x)
      && rv[MedianRank].Num? && rv[InverseMedianRank] == Num(1.0 / rv[MedianRank].x)
      && rv[GeometricMeanRank].GeometricMean?
      && rv[InverseGeometricMeanRank] == InverseGeometricMean(rv[GeometricMeanRank].ranks, rv[GeometricMeanRank].weights)
  {
    InversePair(r, ArithmeticMeanRank, InverseArithmeticMeanRank);
    InversePair(r, HarmonicMeanRank, InverseHarmonicMeanRank);
    InversePair(r, MedianRank, InverseMedianRank);
    RankingMetricsAt(r, GeometricMeanRank);
    RankingMetricsAt(r, InverseGeometricMeanRank);
  }

  lemma InversePair(r: seq<Rank>, m: Metric, inv: Metric)
    requires |r| > 0
    requires (m, inv) in {(ArithmeticMeanRank, InverseArithmeticMeanRank), (HarmonicMeanRank, InverseHarmonicMeanRank),
                          (MedianRank, InverseMedianRank)}
    ensures var rv := RankingMetrics(r);
      rv[m].Num? && rv[inv] == Num(1.0 / rv[m].x)
  {
    RankingMetricsAt(r, m);
    RankingMetricsAt(r, inv);
  }

  /** The standard deviation is the root of the variance, and the count is the number of ranks. */
  lemma RankingMetricsSpreadAndCount(r: seq<Rank>)
    requires |r| > 0
    ensures var rv := RankingMetrics(r);
      && rv[RankVariance] == Num(Variance(r))
      && rv[RankStd] == Sqrt(rv[RankVariance].x)
      && rv[RankCount] == Count(|r|)
  {
    var rv := RankingMetrics(r);
    assert rv[RankStd] == Sqrt(Variance(r)) by { RankingMetricsAt(r, RankStd); }
    assert rv[RankVariance] == Num(Variance(r)) by { RankingMetricsAt(r, RankVariance); }
    assert rv[RankCount] == Count(|r|) by { RankingMetricsAt(r, RankCount); }
  }

  /** The reciprocal of the harmonic mean rank is the mean reciprocal rank (MRR). */
  lemma MrrIsMeanReciprocalRank(r: seq<Rank>)
    requires |r| > 0
    ensures RankingMetrics(r)[InverseHarmonicMeanRank] == Num(Mean(Reciprocals(r)))
  {
    RankingMetricsAt(r, InverseHarmonicMeanRank);
    ReciprocalSumPositive(r);
    ReciprocalOfQuotient(|r| as real, Sum(Reciprocals(r)));
  }

  lemma QuotientInUnitInterval(s: real, n: real)
    requires 0.0 < s <= n
    ensures 0.0 < s / n <= 1.0
  {
  }

  lemma ReciprocalOfQuotient(n: real, s: real)
    requires n > 0.0 && s > 0.0
    ensures 1.0 / (n / s) == s / n
  {
  }

  /** The mean reciprocal rank lies in (0, 1]. */
  lemma MeanReciprocalRankRange(r: seq<Rank>)
    requires |r| > 0
    ensures 0.0 < Mean(Reciprocals(r)) <= 1.0
  {
    ReciprocalSumBounds(r);
    QuotientInUnitInterval(Sum(Reciprocals(r)), |r| as real);
  }

  /** A number that is at least `lo`. */
  predicate NumAtLeast(v: Value, lo: real) {
    v.Num? && v.x >= lo
  }

  /** A number in (0, 1]. */
  predicate NumInUnitInterval(v: Value) {
    v.Num? && 0.0 < v.x <= 1.0
  }

  /** The ranges the metric annotations promise for the unweighted statistics. */
  lemma RankingMetricsRanges(r: seq<Rank>)
    requires |r| > 0
    ensures var rv := RankingMetrics(r);
      && NumAtLeast(rv[ArithmeticMeanRank], 1.0)
      && NumInUnitInterval(rv[InverseArithmeticMeanRank])
      && NumAtLeast(rv[HarmonicMeanRank], 1.0)
      && NumInUnitInterval(rv[InverseHarmonicMeanRank])
      && NumAtLeast(rv[MedianRank], 1.0)
      && NumInUnitInterval(rv[InverseMedianRank])
      && NumAtLeast(rv[RankVariance], 0.0)
      && NumAtLeast(rv[RankMad], 0.0)
  {
    MeanRankRange(r);
    HarmonicMeanRankRange(r);
    MedianRankRange(r);
    SpreadRange(r);
  }

  lemma MeanRankRange(r: seq<Rank>)
    requires |r| > 0
    ensures var rv := RankingMetrics(r);
      NumAtLeast(rv[ArithmeticMeanRank], 1.0) && NumInUnitInterval(rv[InverseArithmeticMeanRank])
  {
    RankingMetricsAt(r, ArithmeticMeanRank);
    RankingMetricsAt(r, InverseArithmeticMeanRank);
    InverseAtMostOne(RankMean(r));
  }

  lemma HarmonicMeanRankRange(r: seq<Rank>)
    requires |r| > 0
    ensures var rv := RankingMetrics(r);
      NumAtLeast(rv[HarmonicMeanRank], 1.0) && NumInUnitInterval(rv[InverseHarmonicMeanRank])
  {
    RankingMetricsAt(r, HarmonicMeanRank);
    MrrIsMeanReciprocalRank(r);
    MeanReciprocalRankRange(r);
  }

  lemma MedianRankRange(r: seq<Rank>)
    requires |r| > 0
    ensures var rv := RankingMetrics(r);
      NumAtLeast(rv[MedianRank], 1.0) && NumInUnitInterval(rv[InverseMedianRank])
  {
    RankingMetricsAt(r, MedianRank);
    RankingMetricsAt(r, InverseMedianRank);
    InverseAtMostOne(RankMedian(r));
  }

  lemma SpreadRange(r: seq<Rank>)
    requires |r| > 0
    ensures var rv := RankingMetrics(r);
      NumAtLeast(rv[RankVariance], 0.0) && NumAtLeast(rv[RankMad], 0.0)
  {
    VarianceRange(r);
    MadRange(r);
  }

  lemma VarianceRange(r: seq<Rank>)
    requires |r| > 0
    ensures NumAtLeast(RankingMetrics(r)[RankVariance], 0.0)
  {
    RankingMetricsAt(r, RankVariance);
    MeanLowerBound(SquaredDeviations(r, Mean(r)), 0.0);
  }

  lemma MadRange(r: seq<Rank>)
    requires |r| > 0
    ensures NumAtLeast(RankingMetrics(r)[RankMad], 0.0)
  {
    RankingMetricsAt(r, RankMad);
  }

  lemma InverseAtMostOne(x: real)
    requires x >= 1.0
    ensures 0.0 < 1.0 / x <= 1.0
  {
  }

  lemma InverseOfFraction(s: real, n: real)
    requires 0.0 < s <= n
    ensures n / s >= 1.0
  {
  }

  // ---------------------------------------------------------------------------
  // Weighted statistics.

  /** Weights numpy can normalise: none negative, positive in total. */
  predicate ValidWeights(w: seq<real>) {
    AllAtLeast(w, 0.0) && Sum(w) > 0.0
  }

  /** `np.average(a, weights=w)`. */
  function WeightedMean(a: seq<real>, w: seq<real>): real
    requires |a| == |w| && ValidWeights(w)
  {
    Sum(Products(a, w)) / Sum(w)
  }

  /** A weighted mean lies within any bounds of the values. */
  lemma WeightedMeanBounds(a: seq<real>, w: seq<real>, lo: real, hi: real)
    requires |a| == |w| && ValidWeights(w) && AllAtLeast(a, lo) && AllAtMost(a, hi)
    ensures lo <= WeightedMean(a, w) <= hi
  {
    WeightedSumLowerBound(a, w, lo);
    WeightedSumUpperBound(a, w, hi);
    DivideBounds(Sum(Products(a, w)), Sum(w), lo, hi);
  }

  lemma WeightedMeanLowerBound(a: seq<real>, w: seq<real>, lo: real)
    requires |a| == |w| && ValidWeights(w) && AllAtLeast(a, lo)
    ensures lo <= WeightedMean(a, w)
  {
    WeightedSumLowerBound(a, w, lo);
    DivideLowerBound(Sum(Products(a, w)), Sum(w), lo);
  }

  lemma DivideBounds(x: real, t: real, lo: real, hi: real)
    requires t > 0.0 && lo * t <= x <= hi * t
    ensures lo <= x / t <= hi
  {
  }

  lemma DivideLowerBound(x: real, t: real, lo: real)
    requires t > 0.0 && lo * t <= x
    ensures lo <= x / t
  {
  }

  /** With all-ones weights the weighted mean is the plain mean. */
  lemma WeightedMeanOfOnes(a: seq<real>)
    requires |a| > 0
    ensures ValidWeights(Constant(|a|, 1.0))
    ensures WeightedMean(a, Constant(|a|, 1.0)) == Mean(a)
  {
    SumConstant(|a|, 1.0);
    ProductsWithOnes(a);
  }

  /** `np.average((a - mean) ** 2, weights=w)`. */
  function WeightedVariance(a: seq<real>, w: seq<real>): real
    requires |a| == |w| && ValidWeights(w)
  {
    WeightedMean(SquaredDeviations(a, WeightedMean(a, w)), w)
  }

  function Zip(a: seq<real>, w: seq<real>): (p: seq<(real, real)>)
    requires |a| == |w|
    ensures |p| == |a| && forall i :: 0 <= i < |a| ==> p[i] == (a[i], w[i])
  {
    seq(|a|, i requires 0 <= i < |a| => (a[i], w[i]))
  }

  function RankOf(p: (real, real)): real {
    p.0
  }

  function WeightOf(p: (real, real)): real {
    p.1
  }

  function Project(ps: seq<(real, real)>, f: ((real, real)) -> real): (r: seq<real>)
    ensures |r| == |ps| && forall i :: 0 <= i < |ps| ==> r[i] == f(ps[i])
  {
    seq(|ps|, i requires 0 <= i < |ps| => f(ps[i]))
  }

  /** Projections of two permutations of each other have the same sum. */
  lemma {:induction false} SumOfPermutedProjection(ps: seq<(real, real)>, qs: seq<(real, real)>, f: ((real, real)) -> real)
    requires multiset(ps) == multiset(qs)
    ensures Sum(Project(ps, f)) == Sum(Project(qs, f))
    decreases |ps|
  {
    if ps == [] {
      assert qs == [] by { assert |multiset(qs)| == 0; }
    } else {
      var n := |ps| - 1;
      var x := ps[n];
      assert x in multiset(qs) by { assert x in multiset(ps); }
      var k :| 0 <= k < |qs| && qs[k] == x;
      var rest := qs[..k] + qs[k + 1..];
      assert multiset(ps[..n]) == multiset(rest) by {
        assert ps == ps[..n] + [x];
        assert qs == qs[..k] + [x] + qs[k + 1..];
        assert multiset(ps) == multiset(ps[..n]) + multiset{x};
        assert multiset(qs) == multiset(qs[..k]) + multiset{x} + multiset(qs[k + 1..]);
        MultisetCancel(multiset(ps[..n]), multiset(rest), x);
      }
      SumOfPermutedProjection(ps[..n], rest, f);
      SumProjectionRemove(ps, n, f);
      SumProjectionRemove(qs, k, f);
      assert ps[..n] + ps[n + 1..] == ps[..n];
    }
  }

  /** Taking one element out of a sequence takes its projection out of the sum. */
  lemma SumProjectionRemove(qs: seq<(real, real)>, k: nat, f: ((real, real)) -> real)
    requires k < |qs|
    ensures Sum(Project(qs, f)) == Sum(Project(qs[..k] + qs[k + 1..], f)) + f(qs[k])
  {
    var a, b := Project(qs[..k], f), Project(qs[k + 1..], f);
    assert Project(qs, f) == a + [f(qs[k])] + b;
    assert Project(qs[..k] + qs[k + 1..], f) == a + b;
    SumConcat(a + [f(qs[k])], b);
    SumConcat(a, [f(qs[k])]);
    SumConcat(a, b);
    assert Sum([f(qs[k])]) == f(qs[k]) by { assert [f(qs[k])][..0] == []; }
  }

  lemma MultisetCancel<T>(a: multiset<T>, b: multiset<T>, x: T)
    requires a + multiset{x} == b + multiset{x}
    ensures a == b
  {
    forall y ensures a[y] == b[y] {
      assert (a + multiset{x})[y] == (b + multiset{x})[y];
    }
  }

  /** `np.searchsorted(cum, 0.5)` over the normalised cumulative sums `cum[j] = Σ sw[..j] / total`, from `i` on. */
  function SearchSorted(sw: seq<real>, total: real, i: nat): (idx: nat)
    requires total > 0.0 && i <= |sw|
    ensures i <= idx <= |sw|
    ensures idx < |sw| ==> Sum(sw[..idx]) / total >= 0.5
    ensures forall j :: i <= j < idx ==> Sum(sw[..j]) / total < 0.5
    decreases |sw| - i
  {
    if i == |sw| || Sum(sw[..i]) / total >= 0.5 then i else SearchSorted(sw, total, i + 1)
  }

  /** The pairs (rank, weight) in the order `np.argsort` puts the ranks (a stable order is taken). */
  function SortedPairs(a: seq<real>, w: seq<real>): (ps: seq<(real, real)>)
    requires |a| == |w|
    ensures |ps| == |a| && multiset(ps) == multiset(Zip(a, w))
    ensures forall i, j :: 0 <= i < j < |ps| ==> ps[i].0 <= ps[j].0
  {
    var ps := SortBy(Zip(a, w), RankOf);
    assert forall i, j :: 0 <= i < j < |ps| ==> RankOf(ps[i]) <= RankOf(ps[j]);
    ps
  }

  /** The sorted weights sum to the total weight. */
  lemma SortedWeightsTotal(a: seq<real>, w: seq<real>)
    requires |a| == |w|
    ensures Sum(Project(SortedPairs(a, w), WeightOf)) == Sum(w)
  {
    SumOfPermutedProjection(SortedPairs(a, w), Zip(a, w), WeightOf);
    assert Project(Zip(a, w), WeightOf) == w;
  }

  /** The position `weighted_median` reads: the searchsorted index into the 0-prefixed cumulative sum. */
  function MedianIndex(a: seq<real>, w: seq<real>): (idx: nat)
    requires |a| == |w| && ValidWeights(w)
    ensures idx <= |a|
  {
    var sw := Project(SortedPairs(a, w), WeightOf);
    SortedWeightsTotal(a, w);
    SearchSorted(sw, Sum(sw), 0)
  }

  /**
   * `weighted_median` (metrics.py, lines 157-165) as written: `s_ranks[idx]`, which is out of range
   * (None, numpy's IndexError) when the searchsorted index reaches the number of ranks.
   */
  function WeightedMedian(a: seq<real>, w: seq<real>): (r: Option<real>)
    requires |a| == |w| && ValidWeights(w)
    ensures r.Some? ==> r.value in a
  {
    var ps := SortedPairs(a, w);
    var idx := MedianIndex(a, w);
    if idx < |ps| then
      assert ps[idx] in multiset(Zip(a, w));
      var k :| 0 <= k < |a| && Zip(a, w)[k] == ps[idx];
      Some(ps[idx].0)
    else None
  }

  /** The weighted median of ranks is a rank. */
  lemma WeightedMedianIsRank(r: seq<Rank>, w: seq<real>)
    requires |r| == |w| && ValidWeights(w)
    ensures WeightedMedian(r, w).Some? ==> WeightedMedian(r, w).value >= 1.0
  {
  }

  /**
   * `weighted_median` fails exactly when the last sorted weight carries more than half the total:
   * every proper prefix then weighs less than one half.
   */
  lemma WeightedMedianOutOfRange(a: seq<real>, w: seq<real>)
    requires |a| == |w| && ValidWeights(w)
    ensures |a| > 0
    ensures var sw := Project(SortedPairs(a, w), WeightOf);
      WeightedMedian(a, w).None? <==> 2.0 * sw[|a| - 1] > Sum(w)
  {
    if |a| == 0 { assert false; }
    var sw := Project(SortedPairs(a, w), WeightOf);
    SortedWeightsTotal(a, w);
    SortedWeightsNonNegative(a, w);
    SearchSortedPastEnd(sw);
  }

  /** The last sorted weight is the weight of some observation. */
  lemma LastSortedWeight(a: seq<real>, w: seq<real>) returns (i: nat)
    requires |a| == |w| > 0
    ensures i < |w| && Project(SortedPairs(a, w), WeightOf)[|a| - 1] == w[i]
  {
    var ps := SortedPairs(a, w);
    assert ps[|a| - 1] in multiset(Zip(a, w));
    i :| 0 <= i < |a| && Zip(a, w)[i] == ps[|a| - 1];
  }

  /** The sorted weights, like the weights, are not negative. */
  lemma SortedWeightsNonNegative(a: seq<real>, w: seq<real>)
    requires |a| == |w| && AllAtLeast(w, 0.0)
    ensures AllAtLeast(Project(SortedPairs(a, w), WeightOf), 0.0)
  {
    var ps := SortedPairs(a, w);
    forall i | 0 <= i < |ps| ensures ps[i].1 >= 0.0 {
      assert ps[i] in multiset(Zip(a, w));
      var k :| 0 <= k < |a| && Zip(a, w)[k] == ps[i];
    }
  }

  /**
   * Over non-negative weights, the search for the half-way point runs past the last position exactly
   * when the last weight is more than half the total.
   */
  lemma SearchSortedPastEnd(sw: seq<real>)
    requires |sw| > 0 && AllAtLeast(sw, 0.0) && Sum(sw) > 0.0
    ensures SearchSorted(sw, Sum(sw), 0) == |sw| <==> 2.0 * sw[|sw| - 1] > Sum(sw)
  {
    var n := |sw|;
    var total := Sum(sw);
    var last := Sum(sw[..n - 1]);
    assert total == last + sw[n - 1] by {
      SumPrefixStep(sw, n - 1);
      SumWhole(sw);
    }
    var idx := SearchSorted(sw, total, 0);
    if 2.0 * sw[n - 1] > total {
      forall j | 0 <= j < n ensures Sum(sw[..j]) / total < 0.5 {
        PrefixSumMonotone(sw, j, n - 1);
        HalfOfTotal(Sum(sw[..j]), total);
      }
    } else {
      HalfOfTotal(last, total);
    }
  }

  /** The cumulative fraction reaches one half exactly when twice the partial sum reaches the total. */
  lemma HalfOfTotal(x: real, total: real)
    requires total > 0.0
    ensures x / total >= 0.5 <==> 2.0 * x >= total
  {
    assert x / total * total == x;
  }

  lemma DivideMonotone(x: real, y: real, t: real)
    requires x <= y && t > 0.0
    ensures x / t <= y / t
  {
  }

  /** A single observation can never be its own weighted median: `weighted_median` fails on it. */
  lemma WeightedMedianOfOne(x: real, v: real)
    requires v > 0.0
    ensures ValidWeights([v])
    ensures WeightedMedian([x], [v]).None?
  {
    assert Sum([v]) == v by { assert [v][..0] == []; }
    WeightedMedianOutOfRange([x], [v]);
    var ps := SortedPairs([x], [v]);
    assert ps[0] in multiset(Zip([x], [v]));
  }

  /** The off-by-one: with equal weights, `[1, 2, 3]` has weighted median 3 although its median is 2. */
  lemma WeightedMedianOffByOne()
    ensures ValidWeights([1.0, 1.0, 1.0])
    ensures WeightedMedian([1.0, 2.0, 3.0], [1.0, 1.0, 1.0]) == Some(3.0)
    ensures Median([1.0, 2.0, 3.0]) == 2.0
  {
    OffByOneMedianIndex();
    assert Sorted([1.0, 2.0, 3.0]) == [1.0, 2.0, 3.0] by { SortedOfSorted([1.0, 2.0, 3.0]); }
  }

  lemma OffByOneSortedPairs()
    ensures SortedPairs([1.0, 2.0, 3.0], [1.0, 1.0, 1.0]) == [(1.0, 1.0), (2.0, 1.0), (3.0, 1.0)]
  {
    SortedPairsOfSorted([1.0, 2.0, 3.0], [1.0, 1.0, 1.0]);
  }

  lemma UniformPrefixSums()
    ensures var w := [1.0, 1.0, 1.0];
      Sum(w[..0]) == 0.0 && Sum(w[..1]) == 1.0 && Sum(w[..2]) == 2.0 && Sum(w) == 3.0
  {
    var w := [1.0, 1.0, 1.0];
    assert Sum(w[..1]) == 1.0 by { assert w[..1][..0] == []; }
    assert Sum(w[..2]) == 2.0 by { SumPrefixStep(w, 1); }
    assert Sum(w) == 3.0 by { SumPrefixStep(w, 2); SumWhole(w); }
  }

  /** Uniform weights over three ranks: the cumulative fractions 0, 1/3, 2/3 first reach one half at index 2. */
  lemma OffByOneMedianIndex()
    ensures ValidWeights([1.0, 1.0, 1.0])
    ensures MedianIndex([1.0, 2.0, 3.0], [1.0, 1.0, 1.0]) == 2
    ensures SortedPairs([1.0, 2.0, 3.0], [1.0, 1.0, 1.0])[2] == (3.0, 1.0)
  {
    var w := [1.0, 1.0, 1.0];
    UniformPrefixSums();
    OffByOneSortedPairs();
    var sw := Project(SortedPairs([1.0, 2.0, 3.0], w), WeightOf);
    assert sw == w;
    assert SearchSorted(w, 3.0, 2) == 2;
    assert SearchSorted(w, 3.0, 0) == 2;
  }

  /**
   * The position `weighted_median` evidently intends: one before the searchsorted index into the
   * 0-prefixed cumulative sum, i.e. the first sorted position at which the cumulative weight reaches
   * one half. The index is at least 1 because the 0-prefixed sum starts below one half, so the
   * position is always in range.
   */
  function CorrectedMedianIndex(a: seq<real>, w: seq<real>): (m: nat)
    requires |a| == |w| && ValidWeights(w)
    ensures m < |a|
    ensures var sw := Project(SortedPairs(a, w), WeightOf);
      2.0 * Sum(sw[..m]) < Sum(w) && 2.0 * Sum(sw[..m + 1]) >= Sum(w)
  {
    var sw := Project(SortedPairs(a, w), WeightOf);
    var idx := MedianIndex(a, w);
    assert 1 <= idx && 2.0 * Sum(sw[..idx - 1]) < Sum(w) && 2.0 * Sum(sw[..idx]) >= Sum(w) by {
      SortedWeightsTotal(a, w);
      var total := Sum(sw);
      assert |a| > 0 by { if |a| == 0 { assert false; } }
      assert Sum(sw[..0]) == 0.0 by { assert sw[..0] == []; }
      HalfOfTotal(0.0, total);
      assert idx >= 1;
      HalfOfTotal(Sum(sw[..idx - 1]), total);
      if idx < |sw| {
        HalfOfTotal(Sum(sw[..idx]), total);
      } else {
        SumWhole(sw);
      }
    }
    idx - 1
  }

  /**
   * The weighted median `weighted_median` evidently intends, on the ranks sorted as `np.argsort`
   * orders them: the sorted rank whose cumulative weight first reaches half the total. The weight
   * sorted strictly before it is less than one half, and with it at least one half, and it is
   * never out of range.
   */
  function CorrectedWeightedMedian(a: seq<real>, w: seq<real>): (r: real)
    requires |a| == |w| && ValidWeights(w)
    ensures r in a
    ensures var ps := SortedPairs(a, w);
      var sw := Project(ps, WeightOf);
      exists m :: 0 <= m < |ps| && r == ps[m].0 && 2.0 * Sum(sw[..m]) < Sum(w) && 2.0 * Sum(sw[..m + 1]) >= Sum(w)
  {
    var ps := SortedPairs(a, w);
    var m := CorrectedMedianIndex(a, w);
    assert ps[m] in multiset(Zip(a, w));
    var k :| 0 <= k < |a| && Zip(a, w)[k] == ps[m];
    ps[m].0
  }

  /** The corrected weighted median of ranks is a rank. */
  lemma CorrectedWeightedMedianIsRank(r: seq<Rank>, w: seq<real>)
    requires |r| == |w| && ValidWeights(w)
    ensures CorrectedWeightedMedian(r, w) >= 1.0
  {
  }

  /** With equal weights on `[1, 2, 3]`, the corrected weighted median is the median 2. */
  lemma CorrectedWeightedMedianOfUniform()
    ensures ValidWeights([1.0, 1.0, 1.0])
    ensures CorrectedWeightedMedian([1.0, 2.0, 3.0], [1.0, 1.0, 1.0]) == 2.0
    ensures Median([1.0, 2.0, 3.0]) == 2.0
  {
    OffByOneMedianIndex();
    OffByOneSortedPairs();
    assert Sorted([1.0, 2.0, 3.0]) == [1.0, 2.0, 3.0] by { SortedOfSorted([1.0, 2.0, 3.0]); }
  }

  /** A single observation is its own corrected weighted median, where `weighted_median` fails. */
  lemma CorrectedWeightedMedianOfOne(x: real, v: real)
    requires v > 0.0
    ensures ValidWeights([v])
    ensures CorrectedWeightedMedian([x], [v]) == x
    ensures WeightedMedian([x], [v]).None?
  {
    WeightedMedianOfOne(x, v);
    assert CorrectedWeightedMedian([x], [v]) in [x];
  }

  /** Sorting already-sorted pairs is the identity (insertion sort inserts each in front). */
  lemma {:induction false} SortedPairsOfSorted(a: seq<real>, w: seq<real>)
    requires |a| == |w|
    requires forall i, j :: 0 <= i < j < |a| ==> a[i] < a[j]
    ensures SortedPairs(a, w) == Zip(a, w)
  {
    SortByOfStrictlySorted(Zip(a, w), RankOf);
  }

  lemma {:induction false} SortedOfSorted(a: seq<real>)
    requires forall i, j :: 0 <= i < j < |a| ==> a[i] < a[j]
    ensures Sorted(a) == a
  {
    SortByOfStrictlySorted(a, Identity);
  }

  lemma {:induction false} SortByOfStrictlySorted<T>(s: seq<T>, key: T -> real)
    requires forall i, j :: 0 <= i < j < |s| ==> key(s[i]) < key(s[j])
    ensures SortBy(s, key) == s
  {
    if s != [] {
      SortByOfStrictlySorted(s[1..], key);
      assert s == [s[0]] + s[1..];
      if |s| > 1 {
        assert key(s[0]) <= key(s[1..][0]);
      }
    }
  }

  // ---------------------------------------------------------------------------
  // The weighted ("macro") statistics.

  datatype StatsError = MedianIndexOutOfRange

  /**
   * `get_macro_ranking_metrics` (metrics.py, lines 168-187): weighted mean, variance and median,
   * the symbolic weighted geometric mean, NaN for the harmonic means and MAD, and the unweighted count.
   * The median's IndexError aborts the whole generator.
   */
  function MacroRankingMetrics(r: seq<Rank>, w: seq<real>): (res: Result<map<Metric, Value>, StatsError>)
    requires |r| == |w| && ValidWeights(w)
    ensures res.Failure? <==> WeightedMedian(r, w).None?
    ensures res.Success? ==> forall m :: m in res.value <==> IsTypeFunc(m)
  {
    WeightedMeanLowerBound(r, w, 1.0);
    WeightedMedianIsRank(r, w);
    match WeightedMedian(r, w)
    case None => Failure(MedianIndexOutOfRange)
    case Some(median) => Success(MacroEntries(r, w, WeightedMean(r, w), median, WeightedVariance(r, w)))
  }

  /** The twelve entries `get_macro_ranking_metrics` yields, from the already reduced mean, median and variance. */
  function MacroEntries(r: seq<Rank>, w: seq<real>, mean: real, median: real, variance: real): (rv: map<Metric, Value>)
    requires mean >= 1.0 && median >= 1.0
    ensures forall m :: m in rv <==> IsTypeFunc(m)
  {
    map[
      ArithmeticMeanRank := Num(mean),
      GeometricMeanRank := GeometricMean(r, w),
      HarmonicMeanRank := NaN,
      MedianRank := Num(median),
      InverseArithmeticMeanRank := Num(1.0 / mean),
      InverseGeometricMeanRank := InverseGeometricMean(r, w),
      InverseHarmonicMeanRank := NaN,
      InverseMedianRank := Num(1.0 / median),
      RankStd := Sqrt(variance),
      RankVariance := Num(variance),
      RankMad := NaN,
      RankCount := Count(|r|)]
  }

  /** With all-ones weights the macro statistics agree with the unweighted ones, except the median family. */
  lemma MacroOfOnesAgrees(r: seq<Rank>)
    requires |r| > 0
    ensures ValidWeights(Constant(|r|, 1.0))
    ensures var res := MacroRankingMetrics(r, Constant(|r|, 1.0));
      var rv := RankingMetrics(r);
      res.Success? ==>
        forall m :: (m in {ArithmeticMeanRank, InverseArithmeticMeanRank, GeometricMeanRank,
                           InverseGeometricMeanRank, RankVariance, RankStd, RankCount}) ==> res.value[m] == rv[m]
  {
    var w := Constant(|r|, 1.0);
    WeightedMeanOfOnes(r);
    WeightedMeanOfOnes(SquaredDeviations(r, Mean(r)));
    var res := MacroRankingMetrics(r, w);
    if res.Success? {
      WeightedMedianIsRank(r, w);
      assert res.value == MacroEntries(r, w, RankMean(r), WeightedMedian(r, w).value, Variance(r));
      forall m | m in {ArithmeticMeanRank, InverseArithmeticMeanRank, GeometricMeanRank,
                       InverseGeometricMeanRank, RankVariance, RankStd, RankCount}
        ensures res.value[m] == RankingMetrics(r)[m]
      {
        OnesEntryAgrees(r, WeightedMedian(r, w).value, m);
      }
    }
  }

  lemma OnesEntryAgrees(r: seq<Rank>, median: real, m: Metric)
    requires |r| > 0 && median >= 1.0
    requires m in {ArithmeticMeanRank, InverseArithmeticMeanRank, GeometricMeanRank,
                   InverseGeometricMeanRank, RankVariance, RankStd, RankCount}
    ensures MacroEntries(r, Constant(|r|, 1.0), RankMean(r), median, Variance(r))[m] == RankingMetrics(r)[m]
  {
    var ones := Constant(|r|, 1.0);
    assert MacroEntries(r, ones, RankMean(r), median, Variance(r))[m] == Reduce(m, r) by {
      ProductsWithOnes(r);
    }
    RankingMetricsAt(r, m);
  }

  /** Ranges of the weighted statistics: the means and medians of ranks are ranks, the variance is not negative. */
  lemma MacroRankingMetricsRanges(r: seq<Rank>, w: seq<real>)
    requires |r| == |w| && ValidWeights(w)
    ensures var res := MacroRankingMetrics(r, w);
      res.Success? ==>
        && NumAtLeast(res.value[ArithmeticMeanRank], 1.0)
        && NumInUnitInterval(res.value[InverseArithmeticMeanRank])
        && NumAtLeast(res.value[MedianRank], 1.0)
        && NumInUnitInterval(res.value[InverseMedianRank])
        && NumAtLeast(res.value[RankVariance], 0.0)
        && res.value[RankStd] == Sqrt(res.value[RankVariance].x)
        && res.value[HarmonicMeanRank] == NaN && res.value[InverseHarmonicMeanRank] == NaN
        && res.value[RankMad] == NaN
        && res.value[RankCount] == Count(|r|)
  {
    var res := MacroRankingMetrics(r, w);
    if res.Success? {
      WeightedMeanLowerBound(r, w, 1.0);
      WeightedMedianIsRank(r, w);
      WeightedMeanLowerBound(SquaredDeviations(r, WeightedMean(r, w)), w, 0.0);
      var mean, median, variance := WeightedMean(r, w), WeightedMedian(r, w).value, WeightedVariance(r, w);
      assert res.value == MacroEntries(r, w, mean, median, variance);
      MacroEntriesRanges(r, w, mean, median, variance);
    }
  }

  lemma MacroEntriesRanges(r: seq<Rank>, w: seq<real>, mean: real, median: real, variance: real)
    requires mean >= 1.0 && median >= 1.0 && variance >= 0.0
    ensures var rv := MacroEntries(r, w, mean, median, variance);
      && NumAtLeast(rv[ArithmeticMeanRank], 1.0)
      && NumInUnitInterval(rv[InverseArithmeticMeanRank])
      && NumAtLeast(rv[MedianRank], 1.0)
      && NumInUnitInterval(rv[InverseMedianRank])
      && NumAtLeast(rv[RankVariance], 0.0)
      && rv[RankStd] == Sqrt(rv[RankVariance].x)
      && rv[HarmonicMeanRank] == NaN && rv[InverseHarmonicMeanRank] == NaN
      && rv[RankMad] == NaN
      && rv[RankCount] == Count(|r|)
  {
    InverseAtMostOne(mean);
    InverseAtMostOne(median);
  }

  /**
   * The values of the weighted statistics for any valid weights: the mean is `np.average` of the ranks,
   * its inverse the reciprocal, the variance the weighted mean of the squared deviations from the
   * weighted mean, and the median entries come from `weighted_median`.
   */
  lemma MacroRankingMetricsValues(r: seq<Rank>, w: seq<real>)
    requires |r| == |w| && ValidWeights(w)
    ensures var res := MacroRankingMetrics(r, w);
      res.Success? ==>
        && WeightedMean(r, w) >= 1.0 && WeightedMedian(r, w).Some?
        && res.value[ArithmeticMeanRank] == Num(WeightedMean(r, w))
        && res.value[InverseArithmeticMeanRank] == Num(1.0 / WeightedMean(r, w))
        && res.value[RankVariance] == Num(WeightedMean(SquaredDeviations(r, WeightedMean(r, w)), w))
        && res.value[RankStd] == Sqrt(WeightedMean(SquaredDeviations(r, WeightedMean(r, w)), w))
        && res.value[MedianRank] == Num(WeightedMedian(r, w).value)
        && res.value[InverseMedianRank] == Num(1.0 / WeightedMedian(r, w).value)
        && res.value[GeometricMeanRank] == GeometricMean(r, w)
        && res.value[InverseGeometricMeanRank] == InverseGeometricMean(r, w)
  {
    WeightedMeanLowerBound(r, w, 1.0);
    WeightedMedianIsRank(r, w);
    var res := MacroRankingMetrics(r, w);
    if res.Success? {
      var mean, median, variance := WeightedMean(r, w), WeightedMedian(r, w).value, WeightedVariance(r, w);
      assert res.value == MacroEntries(r, w, mean, median, variance);
      MacroEntriesValues(r, w, mean, median, variance);
    }
  }

  lemma MacroEntriesValues(r: seq<Rank>, w: seq<real>, mean: real, median: real, variance: real)
    requires mean >= 1.0 && median >= 1.0
    ensures var rv := MacroEntries(r, w, mean, median, variance);
      && rv[ArithmeticMeanRank] == Num(mean)
      && rv[InverseArithmeticMeanRank] == Num(1.0 / mean)
      && rv[RankVariance] == Num(variance)
      && rv[RankStd] == Sqrt(variance)
      && rv[MedianRank] == Num(median)
      && rv[InverseMedianRank] == Num(1.0 / median)
      && rv[GeometricMeanRank] == GeometricMean(r, w)
      && rv[InverseGeometricMeanRank] == InverseGeometricMean(r, w)
  {
  }
}
