/**
 * MacroRankBasedEvaluator (rank_based_evaluator.py, lines 552-614): a rank-based evaluator that also
 * records, for every ranked observation, its grouping key (the two columns of the triple other than
 * the predicted one), and whose `finalize` weights each observation by one over the number of
 * observations sharing its key, then reduces each pool with the weighted statistics.
 *
 * The Python class extends RankBasedEvaluator; here it holds one and forwards to it.
 */
module MacroEvaluator {
  import opened Wrappers
  import opened Numeric
  import opened Vocabulary
  import opened RankStats
  import opened Results
  import opened Evaluator

  /** `self.keys`: a defaultdict of key lists, so a missing target reads as an empty list. */
  type KeyBuffers = map<Target, seq<Key>>

  function KeysOf(keys: KeyBuffers, target: Target): seq<Key> {
    if target in keys then keys[target] else []
  }

  /** `_get_keys(side)`: a stored side's keys, or the head keys followed by the tail keys. */
  function GetKeys(keys: KeyBuffers, side: Side): seq<Key> {
    if side == Both then KeysOf(keys, Head) + KeysOf(keys, Tail)
    else
      var target: Target := side;
      KeysOf(keys, target)
  }

  /** The keys of a batch of triples for a target, one per triple, in batch order. */
  function BatchKeys(hrtBatch: seq<Triple>, target: Target): (ks: seq<Key>)
    ensures |ks| == |hrtBatch| && forall i :: 0 <= i < |hrtBatch| ==> ks[i] == KeyOf(hrtBatch[i], target)
  {
    seq(|hrtBatch|, i requires 0 <= i < |hrtBatch| => KeyOf(hrtBatch[i], target))
  }

  /** `self.keys[target].extend(...)` with the keys of a batch. */
  function AppendKeys(keys: KeyBuffers, target: Target, hrtBatch: seq<Triple>): KeyBuffers {
    keys[target := KeysOf(keys, target) + BatchKeys(hrtBatch, target)]
  }

  // ---------------------------------------------------------------------------
  // Per-key weights.

  /** The number of observations with key `x`. */
  function Occurrences(s: seq<Key>, x: Key): nat {
    if s == [] then 0 else Occurrences(s[..|s| - 1], x) + (if s[|s| - 1] == x then 1 else 0)
  }

  /** A key that is present occurs at least once. */
  lemma {:induction false} OccurrencesPositive(s: seq<Key>, i: nat)
    requires i < |s|
    ensures Occurrences(s, s[i]) >= 1
  {
    var n := |s| - 1;
    if i < n {
      OccurrencesPositive(s[..n], i);
      assert s[..n][i] == s[i];
    }
  }

  /**
   * The weights of `finalize`: from `np.unique(..., return_counts=True, return_inverse=True)`, each
   * observation's weight is the reciprocal of the number of observations with its key.
   */
  function MacroWeights(keys: seq<Key>): (w: seq<real>)
    ensures |w| == |keys|
  {
    forall i | 0 <= i < |keys| ensures Occurrences(keys, keys[i]) >= 1 {
      OccurrencesPositive(keys, i);
    }
    seq(|keys|, i requires 0 <= i < |keys| => 1.0 / Occurrences(keys, keys[i]) as real)
  }

  /** Each weight is one over the number of observations with that key. */
  lemma MacroWeightAt(keys: seq<Key>, i: nat)
    requires i < |keys|
    ensures Occurrences(keys, keys[i]) >= 1 && MacroWeights(keys)[i] == 1.0 / Occurrences(keys, keys[i]) as real
  {
    OccurrencesPositive(keys, i);
  }

  /** The total weight of the observations with key `x`. */
  function KeyWeight(keys: seq<Key>, w: seq<real>, x: Key): real
    requires |keys| == |w|
  {
    if keys == [] then 0.0
    else KeyWeight(keys[..|keys| - 1], w[..|w| - 1], x) + (if keys[|keys| - 1] == x then w[|w| - 1] else 0.0)
  }

  /** Giving every observation of key `x` the same weight c gives that key the total weight count · c. */
  lemma {:induction false} KeyWeightOfConstant(keys: seq<Key>, w: seq<real>, x: Key, c: real)
    requires |keys| == |w|
    requires forall i :: 0 <= i < |keys| && keys[i] == x ==> w[i] == c
    ensures KeyWeight(keys, w, x) == Occurrences(keys, x) as real * c
  {
    if keys != [] {
      var n := |keys| - 1;
      KeyWeightOfConstant(keys[..n], w[..n], x, c);
    }
  }

  /** The weights of the observations sharing a key sum to one: every key counts once. */
  lemma MacroWeightsPerKey(keys: seq<Key>, x: Key)
    requires x in keys
    ensures KeyWeight(keys, MacroWeights(keys), x) == 1.0
  {
    var w := MacroWeights(keys);
    var i :| 0 <= i < |keys| && keys[i] == x;
    var c := Occurrences(keys, x) as real;
    OccurrencesPositive(keys, i);
    forall j | 0 <= j < |keys| && keys[j] == x ensures w[j] == 1.0 / c {
      MacroWeightAt(keys, j);
    }
    KeyWeightOfConstant(keys, w, x, 1.0 / c);
    assert c * (1.0 / c) == 1.0;
  }

  /** The weights of a non-empty key list are positive, so numpy can normalise them. */
  lemma MacroWeightsValid(keys: seq<Key>)
    requires |keys| > 0
    ensures ValidWeights(MacroWeights(keys))
    ensures forall i :: 0 <= i < |keys| ==> 0.0 < MacroWeights(keys)[i] <= 1.0
  {
    var w := MacroWeights(keys);
    forall i | 0 <= i < |keys| ensures 0.0 < w[i] <= 1.0 {
      MacroWeightAt(keys, i);
      var c := Occurrences(keys, keys[i]) as real;
      assert c >= 1.0;
      InverseAtMostOne(c);
    }
    SumAtLeastElement(w, 0);
  }

  /** Two observations with the same key make that key occur at least twice. */
  lemma {:induction false} OccurrencesOfTwo(s: seq<Key>, i: nat, j: nat)
    requires i < j < |s| && s[i] == s[j]
    ensures Occurrences(s, s[i]) >= 2
  {
    var n := |s| - 1;
    assert s[..n][i] == s[i];
    if j < n {
      OccurrencesOfTwo(s[..n], i, j);
    } else {
      OccurrencesPositive(s[..n], i);
    }
  }

  /** Over non-negative weights, one key's weight, or two different keys' weights together, are at most the total. */
  lemma {:induction false} KeyWeightsWithinTotal(keys: seq<Key>, w: seq<real>, x: Key, y: Key)
    requires |keys| == |w| && AllAtLeast(w, 0.0)
    ensures 0.0 <= KeyWeight(keys, w, x) <= Sum(w)
    ensures x != y ==> KeyWeight(keys, w, x) + KeyWeight(keys, w, y) <= Sum(w)
  {
    if keys != [] {
      var n := |keys| - 1;
      KeyWeightsWithinTotal(keys[..n], w[..n], x, y);
      assert w[n] >= 0.0;
    }
  }

  /** Among two or more observations, no macro weight exceeds half the total weight. */
  lemma MacroWeightAtMostHalf(keys: seq<Key>, i: nat)
    requires 2 <= |keys| && i < |keys|
    ensures 2.0 * MacroWeights(keys)[i] <= Sum(MacroWeights(keys))
  {
    var w := MacroWeights(keys);
    MacroWeightsValid(keys);
    MacroWeightAt(keys, i);
    var c := Occurrences(keys, keys[i]) as real;
    assert w[i] * c == 1.0;
    MacroWeightsPerKey(keys, keys[i]);
    if c >= 2.0 {
      KeyWeightsWithinTotal(keys, w, keys[i], keys[i]);
      assert 2.0 * w[i] <= w[i] * c;
    } else {
      var j := if i == 0 then 1 else 0;
      if keys[j] == keys[i] {
        if i < j { OccurrencesOfTwo(keys, i, j); } else { OccurrencesOfTwo(keys, j, i); }
        assert false;
      }
      MacroWeightsPerKey(keys, keys[j]);
      KeyWeightsWithinTotal(keys, w, keys[i], keys[j]);
    }
  }

  /**
   * With the macro weights, `weighted_median` fails exactly on a pool of one observation: each key
   * weighs 1 in total, so the last sorted weight 1/c exceeds half the total only when c = 1 and no
   * other key is present.
   */
  lemma MacroWeightedMedianFails(r: seq<Rank>, keys: seq<Key>)
    requires |r| == |keys| > 0
    ensures ValidWeights(MacroWeights(keys))
    ensures WeightedMedian(r, MacroWeights(keys)).None? <==> |r| == 1
  {
    var w := MacroWeights(keys);
    MacroWeightsValid(keys);
    RankStats.WeightedMedianOutOfRange(r, w);
    if |r| == 1 {
      assert r == [r[0]] && w == [w[0]];
      WeightedMedianOfOne(r[0], w[0]);
    } else {
      var i := LastSortedWeight(r, w);
      MacroWeightAtMostHalf(keys, i);
    }
  }

  // ---------------------------------------------------------------------------
  // Weighted hits@k.

  /** `ranks <= bound` as the 0/1 array numpy averages. */
  function Indicators(r: seq<Rank>, bound: int): (b: seq<real>)
    ensures |b| == |r| && AllAtLeast(b, 0.0) && AllAtMost(b, 1.0)
    ensures forall i :: 0 <= i < |r| ==> b[i] == if r[i] <= bound as real then 1.0 else 0.0
  {
    seq(|r|, i requires 0 <= i < |r| => if r[i] <= bound as real then 1.0 else 0.0)
  }

  /** `np.average(ranks <= bound, weights=weights)`: the weighted fraction of ranks within the bound, in [0, 1]. */
  function MacroHitsFraction(r: seq<Rank>, w: seq<real>, bound: int): (h: real)
    requires |r| == |w| && ValidWeights(w)
    ensures 0.0 <= h <= 1.0
  {
    WeightedMeanBounds(Indicators(r, bound), w, 0.0, 1.0);
    WeightedMean(Indicators(r, bound), w)
  }

  /** Counting the ones among the indicators counts the ranks within the bound. */
  lemma {:induction false} SumOfIndicators(r: seq<Rank>, bound: int)
    ensures Sum(Indicators(r, bound)) == CountAtMost(r, bound) as real
  {
    if r != [] {
      var n := |r| - 1;
      SumOfIndicators(r[..n], bound);
      assert Indicators(r, bound)[..n] == Indicators(r[..n], bound);
    }
  }

  /** With all-ones weights the weighted hits@k is the plain hits@k of the micro evaluator. */
  lemma MacroHitsOfOnes(r: seq<Rank>, bound: int)
    requires |r| > 0
    ensures ValidWeights(Constant(|r|, 1.0))
    ensures MacroHitsFraction(r, Constant(|r|, 1.0), bound) == HitsFraction(r, bound)
  {
    WeightedMeanOfOnes(Indicators(r, bound));
    SumOfIndicators(r, bound);
  }

  function MacroHitsOf(r: seq<Rank>, w: seq<real>, ks: seq<HitsK>, n: nat): map<HitsK, real>
    requires |r| == |w| && ValidWeights(w)
  {
    map k | k in ks :: MacroHitsFraction(r, w, Threshold(k, n))
  }

  // ---------------------------------------------------------------------------
  // finalize, as a function of the state it reads.

  /**
   * One iteration of the nested loop of `finalize`: the shape assertion first, then nothing for an
   * empty pool, otherwise the weighted hits@k and the weighted statistics, or the weighted median's
   * IndexError.
   */
  function MacroPairResult(ks: seq<HitsK>, n: nat, buffers: Buffers, keys: KeyBuffers, side: Side, t: RankType): PairOutcome {
    var w := MacroWeights(GetKeys(keys, side));
    var r := GetRanks(buffers, side, t);
    if |r| != |w| then Failure(ShapeMismatch(side, t))
    else if |r| < 1 then Success(None)
    else
      MacroWeightsValid(GetKeys(keys, side));
      match MacroRankingMetrics(r, w)
      case Failure(_) => Failure(WeightedMedianOutOfRange(side, t))
      case Success(rv) => Success(Some(PairEntries(rv, MacroHitsOf(r, w, ks, n))))
  }

  function MacroPairResults(ks: seq<HitsK>, n: nat, buffers: Buffers, keys: KeyBuffers): ((Side, RankType)) -> PairOutcome {
    (p: (Side, RankType)) => MacroPairResult(ks, n, buffers, keys, p.0, p.1)
  }

  /** The macro `finalize`, read as a function of the state it reads (it changes none). */
  function MacroFinalizeSpec(ks: seq<HitsK>, numEntities: Option<nat>, buffers: Buffers, keys: KeyBuffers): Result<MetricResults, EvalError> {
    match numEntities
    case None => Failure(NoNumEntities)
    case Some(n) => FoldPairs(MacroPairResults(ks, n, buffers, keys), PAIRS)
  }

  /**
   * `f` yields the outcome of every iteration; stated so that it is only used where an iteration's
   * outcome is already under discussion.
   */
  ghost predicate IsMacroPairResults(f: ((Side, RankType)) -> PairOutcome, ks: seq<HitsK>, n: nat, buffers: Buffers, keys: KeyBuffers) {
    forall side, t {:trigger MacroPairResult(ks, n, buffers, keys, side, t)} ::
      f((side, t)) == MacroPairResult(ks, n, buffers, keys, side, t)
  }

  // ---------------------------------------------------------------------------
  // Properties of the macro finalize.

  /** Whether a pool's iteration raises: its length differs from its weights', or its weighted median is out of range. */
  predicate MacroPairFails(buffers: Buffers, keys: KeyBuffers, side: Side, t: RankType) {
    var w := MacroWeights(GetKeys(keys, side));
    var r := GetRanks(buffers, side, t);
    |r| != |w| || (|r| > 0 && (MacroWeightsValid(GetKeys(keys, side)); WeightedMedian(r, w).None?))
  }

  lemma MacroPairOutcome(ks: seq<HitsK>, n: nat, buffers: Buffers, keys: KeyBuffers, side: Side, t: RankType)
    ensures MacroPairResult(ks, n, buffers, keys, side, t).Failure? <==> MacroPairFails(buffers, keys, side, t)
  {
    var keysOfSide := GetKeys(keys, side);
    if |GetRanks(buffers, side, t)| == |keysOfSide| > 0 {
      MacroWeightsValid(keysOfSide);
    }
  }

  /** What an iteration that does not raise yields: nothing for an empty pool, else the entries of the weighted statistics and hits@k. */
  lemma MacroPairValue(ks: seq<HitsK>, n: nat, buffers: Buffers, keys: KeyBuffers, side: Side, t: RankType)
    requires !MacroPairFails(buffers, keys, side, t)
    ensures var r := GetRanks(buffers, side, t);
      var w := MacroWeights(GetKeys(keys, side));
      var p := MacroPairResult(ks, n, buffers, keys, side, t);
      && (|r| == 0 ==> p == Success(None))
      && (|r| > 0 ==> ValidWeights(w) && p == Success(Some(PairEntries(MacroRankingMetrics(r, w).value, MacroHitsOf(r, w, ks, n)))))
  {
    var keysOfSide := GetKeys(keys, side);
    if |GetRanks(buffers, side, t)| > 0 {
      MacroWeightsValid(keysOfSide);
    }
  }

  /** An iteration raises the shape assertion exactly when its pool and its weights differ in length, and otherwise the median's IndexError. */
  lemma MacroPairError(ks: seq<HitsK>, n: nat, buffers: Buffers, keys: KeyBuffers, side: Side, t: RankType)
    ensures var p := MacroPairResult(ks, n, buffers, keys, side, t);
      p.Failure? ==>
        && (p.error == ShapeMismatch(side, t) <==> |GetRanks(buffers, side, t)| != |GetKeys(keys, side)|)
        && (p.error.ShapeMismatch? || p.error == WeightedMedianOutOfRange(side, t))
  {
  }

  /**
   * The macro `finalize` raises the ValueError exactly when `num_entities` was never set, and
   * otherwise raises exactly when one of the listed pools fails its shape assertion or its median.
   */
  lemma MacroFinalizeFailures(ks: seq<HitsK>, numEntities: Option<nat>, buffers: Buffers, keys: KeyBuffers)
    ensures numEntities.None? ==> MacroFinalizeSpec(ks, numEntities, buffers, keys) == Failure(NoNumEntities)
    ensures numEntities.Some? ==>
      (MacroFinalizeSpec(ks, numEntities, buffers, keys).Failure? <==>
        exists side, t :: IsBaseRankType(t) && MacroPairFails(buffers, keys, side, t))
  {
    if numEntities.Some? {
      var n := numEntities.value;
      var f := MacroPairResults(ks, n, buffers, keys);
      FoldPairsFailure(f, PAIRS);
      if exists side, t :: IsBaseRankType(t) && MacroPairFails(buffers, keys, side, t) {
        var side, t :| IsBaseRankType(t) && MacroPairFails(buffers, keys, side, t);
        MacroPairRaises(ks, n, buffers, keys, side, t);
      }
      if MacroFinalizeSpec(ks, numEntities, buffers, keys).Failure? {
        var j :| 0 <= j < |PAIRS| && f(PAIRS[j]).Failure?;
        var side, t := PAIRS[j].0, PAIRS[j].1;
        assert f(PAIRS[j]) == MacroPairResult(ks, n, buffers, keys, side, t);
        MacroPairOutcome(ks, n, buffers, keys, side, t);
        PairsListed(side, t);
      }
    }
  }

  /** A listed pool that fails makes its iteration of the loop raise. */
  lemma MacroPairRaises(ks: seq<HitsK>, n: nat, buffers: Buffers, keys: KeyBuffers, side: Side, t: RankType)
    requires IsBaseRankType(t) && MacroPairFails(buffers, keys, side, t)
    ensures exists j :: 0 <= j < |PAIRS| && MacroPairResults(ks, n, buffers, keys)(PAIRS[j]).Failure?
  {
    var f := MacroPairResults(ks, n, buffers, keys);
    MacroPairOutcome(ks, n, buffers, keys, side, t);
    PairsListed(side, t);
    var j :| 0 <= j < |PAIRS| && PAIRS[j] == (side, t);
    assert f(PAIRS[j]) == MacroPairResult(ks, n, buffers, keys, side, t);
  }

  /** In a table the macro `finalize` returns, no listed pool raised. */
  lemma MacroFinalizeSucceeded(ks: seq<HitsK>, n: nat, buffers: Buffers, keys: KeyBuffers, side: Side, t: RankType)
    requires MacroFinalizeSpec(ks, Some(n), buffers, keys).Success? && IsBaseRankType(t)
    ensures !MacroPairFails(buffers, keys, side, t)
  {
    MacroFinalizeFailures(ks, Some(n), buffers, keys);
  }

  /** The metric entries one pool contributes to the table of the macro `finalize`. */
  function MacroPairMetrics(ks: seq<HitsK>, n: nat, buffers: Buffers, keys: KeyBuffers, side: Side, t: RankType): map<Metric, Value> {
    MetricsOf(MacroPairResult(ks, n, buffers, keys, side, t))
  }

  /** The hits@k entries one pool contributes to the table of the macro `finalize`. */
  function MacroPairHits(ks: seq<HitsK>, n: nat, buffers: Buffers, keys: KeyBuffers, side: Side, t: RankType): map<HitsK, real> {
    HitsOfOutcome(MacroPairResult(ks, n, buffers, keys, side, t))
  }

  /**
   * The metric entries a pool that does not raise contributes: none when empty; otherwise the weighted
   * statistics, which are the registry's metrics without the adjusted mean rank.
   */
  lemma MacroPairMetricsContents(ks: seq<HitsK>, n: nat, buffers: Buffers, keys: KeyBuffers, side: Side, t: RankType)
    requires !MacroPairFails(buffers, keys, side, t)
    ensures var r := GetRanks(buffers, side, t);
      var w := MacroWeights(GetKeys(keys, side));
      var metrics := MacroPairMetrics(ks, n, buffers, keys, side, t);
      && (|r| == 0 ==> metrics == map[])
      && (|r| > 0 ==>
            && |r| == |w| && ValidWeights(w) && MacroRankingMetrics(r, w).Success?
            && metrics == MacroRankingMetrics(r, w).value
            && (forall m :: m in metrics <==> IsTypeFunc(m)))
  {
    var r := GetRanks(buffers, side, t);
    var w := MacroWeights(GetKeys(keys, side));
    var p := MacroPairResult(ks, n, buffers, keys, side, t);
    MacroPairValue(ks, n, buffers, keys, side, t);
    assert MacroPairMetrics(ks, n, buffers, keys, side, t) == MetricsOf(p);
    if |r| > 0 {
      assert p.value.value.metrics == MacroRankingMetrics(r, w).value;
    }
  }

  /**
   * The hits@k entries a pool that does not raise contributes: none when empty; otherwise one for each
   * configured k, the weighted fraction of ranks within its bound; each in [0, 1].
   */
  lemma MacroPairHitsContents(ks: seq<HitsK>, n: nat, buffers: Buffers, keys: KeyBuffers, side: Side, t: RankType)
    requires !MacroPairFails(buffers, keys, side, t)
    ensures var r := GetRanks(buffers, side, t);
      var w := MacroWeights(GetKeys(keys, side));
      var hits := MacroPairHits(ks, n, buffers, keys, side, t);
      && (|r| == 0 ==> hits == map[])
      && (|r| > 0 ==>
            && |r| == |w| && ValidWeights(w)
            && (forall k :: k in hits <==> k in ks)
            && (forall k :: k in ks ==> hits[k] == MacroHitsFraction(r, w, Threshold(k, n))))
      && (forall k :: k in hits ==> 0.0 <= hits[k] <= 1.0)
  {
    var r := GetRanks(buffers, side, t);
    var w := MacroWeights(GetKeys(keys, side));
    var p := MacroPairResult(ks, n, buffers, keys, side, t);
    MacroPairValue(ks, n, buffers, keys, side, t);
    assert MacroPairHits(ks, n, buffers, keys, side, t) == HitsOfOutcome(p);
    if |r| > 0 {
      assert p.value.value.hits == MacroHitsOf(r, w, ks, n);
    }
  }

  /**
   * The metric entries of the table the macro `finalize` returns: none for a pair with an empty pool
   * or an unlisted rank type; the weighted statistics of its pool otherwise; the adjusted mean rank and
   * its index are never computed.
   */
  lemma MacroFinalizeTable(ks: seq<HitsK>, n: nat, buffers: Buffers, keys: KeyBuffers, side: Side, t: RankType)
    requires MacroFinalizeSpec(ks, Some(n), buffers, keys).Success?
    ensures var res := MacroFinalizeSpec(ks, Some(n), buffers, keys).value;
      var r := GetRanks(buffers, side, t);
      var w := MacroWeights(GetKeys(keys, side));
      && (!IsBaseRankType(t) || |r| == 0 ==> forall m :: (m, side, t) !in res.asr)
      && (IsBaseRankType(t) && |r| > 0 ==>
            && |r| == |w| && ValidWeights(w) && MacroRankingMetrics(r, w).Success?
            && (forall m :: (m, side, t) in res.asr <==> IsTypeFunc(m))
            && (forall m :: IsTypeFunc(m) ==> res.asr[(m, side, t)] == MacroRankingMetrics(r, w).value[m]))
      && (AdjustedArithmeticMeanRank, side, t) !in res.asr
      && (AdjustedArithmeticMeanRankIndex, side, t) !in res.asr
  {
    var f := MacroPairResults(ks, n, buffers, keys);
    assert MetricsOf(f((side, t))) == MacroPairMetrics(ks, n, buffers, keys, side, t);
    forall m {
      FoldPairsMetric(f, PAIRS, m, side, t);
    }
    PairsListed(side, t);
    if IsBaseRankType(t) {
      MacroFinalizeSucceeded(ks, n, buffers, keys, side, t);
      MacroPairMetricsContents(ks, n, buffers, keys, side, t);
    }
  }

  /**
   * The hits@k entries of that table: none for a pair with an empty pool or an unlisted rank type; for
   * exactly the configured ks otherwise, each the weighted fraction of ranks within the bound, in [0, 1].
   */
  lemma MacroFinalizeHits(ks: seq<HitsK>, n: nat, buffers: Buffers, keys: KeyBuffers, side: Side, t: RankType)
    requires MacroFinalizeSpec(ks, Some(n), buffers, keys).Success?
    ensures var res := MacroFinalizeSpec(ks, Some(n), buffers, keys).value;
      var r := GetRanks(buffers, side, t);
      var w := MacroWeights(GetKeys(keys, side));
      && (!IsBaseRankType(t) || |r| == 0 ==> forall k :: (side, t, k) !in res.hits)
      && (IsBaseRankType(t) && |r| > 0 ==>
            && |r| == |w| && ValidWeights(w)
            && (forall k :: (side, t, k) in res.hits <==> k in ks)
            && (forall k :: k in ks ==> res.hits[(side, t, k)] == MacroHitsFraction(r, w, Threshold(k, n))))
      && (forall k :: (side, t, k) in res.hits ==> 0.0 <= res.hits[(side, t, k)] <= 1.0)
  {
    var f := MacroPairResults(ks, n, buffers, keys);
    assert HitsOfOutcome(f((side, t))) == MacroPairHits(ks, n, buffers, keys, side, t);
    forall k {
      FoldPairsHit(f, PAIRS, side, t, k);
    }
    PairsListed(side, t);
    if IsBaseRankType(t) {
      MacroFinalizeSucceeded(ks, n, buffers, keys, side, t);
      MacroPairHitsContents(ks, n, buffers, keys, side, t);
    }
  }

  // ---------------------------------------------------------------------------
  // Keys and ranks stay index-aligned.

  /** Every stored rank buffer of a base rank type is as long as its target's key buffer. */
  predicate Aligned(buffers: Buffers, keys: KeyBuffers) {
    forall target: Target, t :: IsBaseRankType(t) ==> |BufferOf(buffers, (target, t))| == |KeysOf(keys, target)|
  }

  /** So the pooled ranks of any side are as long as that side's keys, and position i of both belongs to the same observation. */
  lemma AlignedPools(buffers: Buffers, keys: KeyBuffers, side: Side, t: RankType)
    requires Aligned(buffers, keys) && IsBaseRankType(t)
    ensures |GetRanks(buffers, side, t)| == |GetKeys(keys, side)|
  {
    assert |BufferOf(buffers, (Head, t))| == |KeysOf(keys, Head)|;
    assert |BufferOf(buffers, (Tail, t))| == |KeysOf(keys, Tail)|;
  }

  /** A batch whose ranks come one per triple keeps the buffers aligned. */
  lemma AlignedPreserved(buffers: Buffers, keys: KeyBuffers, target: Target, batch: map<RankType, seq<Rank>>, hrtBatch: seq<Triple>)
    requires Aligned(buffers, keys)
    requires forall t :: IsBaseRankType(t) ==> |BatchOf(batch, t)| == |hrtBatch|
    ensures Aligned(Appended(buffers, target, batch), AppendKeys(keys, target, hrtBatch))
  {
    AppendedBuffers(buffers, target, batch);
  }

  /**
   * With aligned buffers the macro `finalize` raises exactly when some pool of a side and base rank
   * type holds exactly one observation: only then is its weighted median out of range.
   */
  lemma AlignedFinalizeFailures(ks: seq<HitsK>, n: nat, buffers: Buffers, keys: KeyBuffers)
    requires Aligned(buffers, keys)
    ensures MacroFinalizeSpec(ks, Some(n), buffers, keys).Failure? <==>
      exists side: Side, t: RankType :: IsBaseRankType(t) && |GetRanks(buffers, side, t)| == 1
  {
    MacroFinalizeFailures(ks, Some(n), buffers, keys);
    forall side: Side, t: RankType | IsBaseRankType(t)
      ensures MacroPairFails(buffers, keys, side, t) <==> |GetRanks(buffers, side, t)| == 1
    {
      AlignedPools(buffers, keys, side, t);
      if |GetRanks(buffers, side, t)| > 0 {
        MacroWeightedMedianFails(GetRanks(buffers, side, t), GetKeys(keys, side));
      }
    }
  }

  /** With aligned buffers the shape assertion never fires: the macro `finalize` can then only raise for the median. */
  lemma AlignedFinalizeErrors(ks: seq<HitsK>, n: nat, buffers: Buffers, keys: KeyBuffers)
    requires Aligned(buffers, keys)
    ensures var res := MacroFinalizeSpec(ks, Some(n), buffers, keys);
      res.Failure? ==> res.error.WeightedMedianOutOfRange?
  {
    var f := MacroPairResults(ks, n, buffers, keys);
    var res := MacroFinalizeSpec(ks, Some(n), buffers, keys);
    if res.Failure? {
      FoldPairsError(f, PAIRS);
      var j :| 0 <= j < |PAIRS| && f(PAIRS[j]) == Failure(res.error);
      AlignedPairError(ks, n, buffers, keys, PAIRS[j]);
    }
  }

  /** A listed iteration over aligned buffers can only raise for the median. */
  lemma AlignedPairError(ks: seq<HitsK>, n: nat, buffers: Buffers, keys: KeyBuffers, p: (Side, RankType))
    requires Aligned(buffers, keys) && p in PAIRS
    ensures var o := MacroPairResults(ks, n, buffers, keys)(p);
      o.Failure? ==> o.error.WeightedMedianOutOfRange?
  {
    var side, t := p.0, p.1;
    assert MacroPairResults(ks, n, buffers, keys)(p) == MacroPairResult(ks, n, buffers, keys, side, t);
    PairsListed(side, t);
    AlignedPools(buffers, keys, side, t);
    MacroPairError(ks, n, buffers, keys, side, t);
  }

  // ---------------------------------------------------------------------------
  // The evaluator object.

  class MacroRankBasedEvaluator {
    const base: RankBasedEvaluator
    var keys: KeyBuffers

    constructor(base: RankBasedEvaluator)
      ensures this.base == base && keys == map[]
    {
      this.base := base;
      keys := map[];
    }

    /** `__init__`: the rank-based evaluator's validation of ks, and empty key buffers. */
    static method Create(ks: Option<seq<HitsK>>) returns (r: Result<MacroRankBasedEvaluator, EvalError>)
      ensures var given := ks.GetOr(DEFAULT_KS);
        && (r.Success? <==> forall k :: k in given ==> ValidK(k))
        && (r.Success? ==> fresh(r.value) && fresh(r.value.base) && r.value.keys == map[]
                           && r.value.base.ks == given && r.value.base.ranks == map[] && r.value.base.numEntities == None)
    {
      var b := RankBasedEvaluator.Create(ks);
      if b.Failure? {
        return Failure(b.error);
      }
      var e := new MacroRankBasedEvaluator(b.value);
      return Success(e);
    }

    /**
     * `process_scores_`: the rank-based processing, then the batch's keys appended to the target's key
     * buffer, so that they line up with the ranks just appended.
     */
    method ProcessScores(hrtBatch: seq<Triple>, target: Target, scores: ScoreMatrix, trueScores: Option<seq<real>>, ranker: Ranker)
      returns (r: Result<(), EvalError>)
      modifies this, base
      ensures base.ks == old(base.ks)
      ensures trueScores.None? ==>
        r == Failure(MissingTrueScores) && base.ranks == old(base.ranks) && base.numEntities == old(base.numEntities) && keys == old(keys)
      ensures trueScores.Some? ==>
        && r == Success(())
        && base.ranks == Appended(old(base.ranks), target, ranker(trueScores.value, scores))
        && base.numEntities == Some(scores.width)
        && keys == AppendKeys(old(keys), target, hrtBatch)
    {
      r := base.ProcessScores(target, scores, trueScores, ranker);
      if r.Failure? {
        return;
      }
      keys := AppendKeys(keys, target, hrtBatch);
    }

    /**
     * One iteration of the inner loop of `finalize`, given the weights of its side: the outcome `f`
     * assigns to the pair.
     */
    method FinalizePair(n: nat, f: ((Side, RankType)) -> PairOutcome, side: Side, t: RankType, weights: seq<real>) returns (p: PairOutcome)
      requires weights == MacroWeights(GetKeys(keys, side))
      requires IsMacroPairResults(f, base.ks, n, base.ranks, keys)
      ensures p == f((side, t))
    {
      var pool := base.Ranks(side, t);
      if |pool| != |weights| {
        p := Failure(ShapeMismatch(side, t));
      } else if |pool| < 1 {
        p := Success(None);
      } else {
        MacroWeightsValid(GetKeys(keys, side));
        var hits := MacroHitsOf(pool, weights, base.ks, n);
        var metrics := MacroRankingMetrics(pool, weights);
        if metrics.Failure? {
          p := Failure(WeightedMedianOutOfRange(side, t));
        } else {
          p := Success(Some(PairEntries(metrics.value, hits)));
        }
      }
      assert p == MacroPairResult(base.ks, n, base.ranks, keys, side, t);
    }

    /**
     * One pass of the inner loop of `finalize`, for side `SIDES[si]` and rank type `RANK_TYPES[ti]`,
     * continuing the table `acc` of the pairs before it: the table after this pair, which when the pair
     * raises is already the error of the whole loop.
     */
    method FinalizeStep(n: nat, f: ((Side, RankType)) -> PairOutcome, si: nat, ti: nat, weights: seq<real>, acc: MetricResults)
      returns (r: Result<MetricResults, EvalError>)
      requires si < |SIDES| && ti < |RANK_TYPES| && IsMacroPairResults(f, base.ks, n, base.ranks, keys)
      requires weights == MacroWeights(GetKeys(keys, SIDES[si]))
      requires FoldPairs(f, PAIRS[..3 * si + ti]) == Success(acc)
      ensures r == FoldPairs(f, PAIRS[..3 * si + ti + 1])
      ensures r.Failure? ==> r == FoldPairs(f, PAIRS)
    {
      var side, t := SIDES[si], RANK_TYPES[ti];
      var i := 3 * si + ti;
      PairsAt(si, ti);
      var p := FinalizePair(n, f, side, t, weights);
      FoldPairsStep(f, PAIRS, i, acc);
      match p
      case Failure(e) =>
        FailurePersists(f, PAIRS, i + 1);
        r := Failure(e);
      case Success(None) =>
        r := Success(acc);
      case Success(Some(entries)) =>
        r := Success(Merge(acc, side, t, entries));
    }

    /**
     * The inner loop of `finalize` for side `SIDES[si]`, continuing the table `acc` of the sides before
     * it: the table after this side's pairs, or the error the whole loop raises.
     */
    method FinalizeSide(n: nat, f: ((Side, RankType)) -> PairOutcome, si: nat, acc0: MetricResults) returns (r: Result<MetricResults, EvalError>)
      requires si < |SIDES| && IsMacroPairResults(f, base.ks, n, base.ranks, keys)
      requires FoldPairs(f, PAIRS[..3 * si]) == Success(acc0)
      ensures r.Success? ==> r == FoldPairs(f, PAIRS[..3 * si + 3])
      ensures r.Failure? ==> r == FoldPairs(f, PAIRS)
    {
      var weights := MacroWeights(GetKeys(keys, SIDES[si]));
      var acc := acc0;
      for ti := 0 to |RANK_TYPES|
        invariant FoldPairs(f, PAIRS[..3 * si + ti]) == Success(acc)
      {
        var step := FinalizeStep(n, f, si, ti, weights, acc);
        if step.Failure? {
          return step;
        }
        acc := step.value;
      }
      return Success(acc);
    }

    /** `finalize`: the table of `MacroFinalizeSpec`; the buffers are left as they are. */
    method Finalize() returns (r: Result<MetricResults, EvalError>)
      ensures r == MacroFinalizeSpec(base.ks, base.numEntities, base.ranks, keys)
    {
      if base.numEntities.None? {
        return Failure(NoNumEntities);
      }
      var n := base.numEntities.value;
      var f := MacroPairResults(base.ks, n, base.ranks, keys);
      assert IsMacroPairResults(f, base.ks, n, base.ranks, keys);
      var acc := MetricResults(map[], map[]);
      for si := 0 to |SIDES|
        invariant FoldPairs(f, PAIRS[..3 * si]) == Success(acc)
      {
        var step := FinalizeSide(n, f, si, acc);
        if step.Failure? {
          return step;
        }
        acc := step.value;
      }
      assert PAIRS[..3 * |SIDES|] == PAIRS;
      return Success(acc);
    }
  }
}
