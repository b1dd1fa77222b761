/**
 * RankBasedEvaluator (rank_based_evaluator.py, lines 271-397): rank buffers keyed by (target, rank type),
 * filled batch by batch by `process_scores_`, and `finalize`, which reduces the pool of every
 * (side, rank type) pair into the result table and then clears the buffers.
 */
module Evaluator {
  import opened Wrappers
  import opened Vocabulary
  import opened RankStats
  import opened Results

  /** `self.ranks`: a defaultdict of rank lists, so a missing key reads as an empty list. */
  type Buffers = map<(Target, RankType), seq<Rank>>

  /** A score tensor of shape (|rows|, width). */
  datatype ScoreMatrix = ScoreMatrix(width: nat, rows: seq<seq<real>>)

  predicate WellShaped(m: ScoreMatrix) {
    forall i :: 0 <= i < |m.rows| ==> |m.rows[i]| == m.width
  }

  /** `Ranks.from_scores(true_scores, all_scores)`: the ranks of each type for one batch. */
  type Ranker = (seq<real>, ScoreMatrix) -> map<RankType, seq<Rank>>

  /** What the rank-based evaluators raise. */
  datatype EvalError =
    | InvalidK(k: HitsK)                                    // ValueError in __init__
    | MissingTrueScores                                     // ValueError in process_scores_
    | NoNumEntities                                         // the bare ValueError of finalize
    | AdjustedIndexDivisionByZero(side: Side)               // ZeroDivisionError computing AAMRI
    | ShapeMismatch(side: Side, rankType: RankType)         // the macro finalize's shape assertion
    | WeightedMedianOutOfRange(side: Side, rankType: RankType) // IndexError in the weighted median

  const DEFAULT_KS: seq<HitsK> := [IntK(1), IntK(3), IntK(5), IntK(10)]

  /** A float k must be a relative rank strictly between 0 and 1; any int k is accepted. */
  predicate ValidK(k: HitsK) {
    k.FracK? ==> 0.0 < k.f < 1.0
  }

  function BufferOf(buffers: Buffers, key: (Target, RankType)): seq<Rank> {
    if key in buffers then buffers[key] else []
  }

  /** `_get_ranks(side, rank_type)`: a stored side's buffer, or the head buffer followed by the tail buffer. */
  function GetRanks(buffers: Buffers, side: Side, t: RankType): seq<Rank> {
    if side == Both then BufferOf(buffers, (Head, t)) + BufferOf(buffers, (Tail, t))
    else
      var target: Target := side;
      BufferOf(buffers, (target, t))
  }

  // ---------------------------------------------------------------------------
  // process_scores_

  /** The ranks of type `t` a batch carries, empty when it has none of that type. */
  function BatchOf(batch: map<RankType, seq<Rank>>, t: RankType): seq<Rank> {
    if t in batch then batch[t] else []
  }

  /** The buffers after `self.ranks[target, t].extend(batch[t])` for each rank type `t` of `ts` the batch reports. */
  function AppendTypes(buffers: Buffers, target: Target, batch: map<RankType, seq<Rank>>, ts: seq<RankType>): Buffers {
    if ts == [] then buffers
    else
      var before := AppendTypes(buffers, target, batch, ts[..|ts| - 1]);
      var t := ts[|ts| - 1];
      if t in batch then before[(target, t) := BufferOf(before, (target, t)) + batch[t]] else before
  }

  /** What `process_scores_` does to the buffers with the ranks of one batch. */
  function Appended(buffers: Buffers, target: Target, batch: map<RankType, seq<Rank>>): Buffers {
    AppendTypes(buffers, target, batch, EXTENDED_RANK_TYPES)
  }

  /** Appending over distinct rank types extends exactly those buffers of the target and no other buffer. */
  lemma {:induction false} AppendTypesBuffers(buffers: Buffers, target: Target, batch: map<RankType, seq<Rank>>, ts: seq<RankType>)
    requires forall i, j :: 0 <= i < j < |ts| ==> ts[i] != ts[j]
    ensures var after := AppendTypes(buffers, target, batch, ts);
      && (forall t :: BufferOf(after, (target, t)) == BufferOf(buffers, (target, t)) + (if t in ts then BatchOf(batch, t) else []))
      && (forall key: (Target, RankType) :: key.0 != target ==> BufferOf(after, key) == BufferOf(buffers, key))
  {
    if ts != [] {
      var init := ts[..|ts| - 1];
      var last := ts[|ts| - 1];
      AppendTypesBuffers(buffers, target, batch, init);
      assert ts == init + [last];
      assert last !in init;
    }
  }

  /** A batch for a target extends each of that target's buffers by the batch's ranks of its type, and leaves the other target alone. */
  lemma AppendedBuffers(buffers: Buffers, target: Target, batch: map<RankType, seq<Rank>>)
    ensures var after := Appended(buffers, target, batch);
      && (forall t :: BufferOf(after, (target, t)) == BufferOf(buffers, (target, t)) + BatchOf(batch, t))
      && (forall key: (Target, RankType) :: key.0 != target ==> BufferOf(after, key) == BufferOf(buffers, key))
  {
    AppendTypesBuffers(buffers, target, batch, EXTENDED_RANK_TYPES);
    forall t: RankType ensures t in EXTENDED_RANK_TYPES {
      assert t == EXTENDED_RANK_TYPES[match t case Optimistic => 0 case Realistic => 1 case Pessimistic => 2 case ExpectedRealistic => 3];
    }
  }

  /** A head batch lands in the pooled view of both sides before every tail rank. */
  lemma PooledRanksGrowAtHead(before: Buffers, after: Buffers, t: RankType, added: seq<Rank>)
    requires BufferOf(after, (Head, t)) == BufferOf(before, (Head, t)) + added
    requires BufferOf(after, (Tail, t)) == BufferOf(before, (Tail, t))
    ensures GetRanks(after, Both, t) == GetRanks(before, Head, t) + added + GetRanks(before, Tail, t)
    ensures multiset(GetRanks(after, Both, t)) == multiset(GetRanks(before, Both, t)) + multiset(added)
  {
    var head, tail := BufferOf(before, (Head, t)), BufferOf(before, (Tail, t));
    calc {
      multiset(GetRanks(after, Both, t));
      multiset(head + added + tail);
      multiset(head) + multiset(added) + multiset(tail);
      multiset(head + tail) + multiset(added);
    }
  }

  /** A tail batch lands at the end of the pooled view of both sides. */
  lemma PooledRanksGrowAtTail(before: Buffers, after: Buffers, t: RankType, added: seq<Rank>)
    requires BufferOf(after, (Tail, t)) == BufferOf(before, (Tail, t)) + added
    requires BufferOf(after, (Head, t)) == BufferOf(before, (Head, t))
    ensures GetRanks(after, Both, t) == GetRanks(before, Both, t) + added
  {
    var head, tail := BufferOf(before, (Head, t)), BufferOf(before, (Tail, t));
    assert head + (tail + added) == (head + tail) + added;
  }

  /** What `process_scores_` does to the pooled view of both sides. */
  lemma AppendedPooledRanks(buffers: Buffers, target: Target, batch: map<RankType, seq<Rank>>, t: RankType)
    ensures var after := Appended(buffers, target, batch);
      && GetRanks(after, target, t) == GetRanks(buffers, target, t) + BatchOf(batch, t)
      && multiset(GetRanks(after, Both, t)) == multiset(GetRanks(buffers, Both, t)) + multiset(BatchOf(batch, t))
      && (target == Head ==>
            GetRanks(after, Both, t) == GetRanks(buffers, Head, t) + BatchOf(batch, t) + GetRanks(buffers, Tail, t))
      && (target == Tail ==> GetRanks(after, Both, t) == GetRanks(buffers, Both, t) + BatchOf(batch, t))
  {
    var after := Appended(buffers, target, batch);
    AppendedBuffers(buffers, target, batch);
    if target == Head {
      PooledRanksGrowAtHead(buffers, after, t, BatchOf(batch, t));
    } else {
      PooledRanksGrowAtTail(buffers, after, t, BatchOf(batch, t));
    }
  }

  // ---------------------------------------------------------------------------
  // hits@k

  /** `int(x)`: truncation toward zero. */
  function Truncate(x: real): int {
    if x >= 0.0 then x.Floor else -((-x).Floor)
  }

  /** The rank bound of hits@k: k itself for an int, `int(num_entities * k)` for a float. */
  function Threshold(k: HitsK, numEntities: nat): int {
    match k
    case IntK(n) => n
    case FracK(f) => Truncate(numEntities as real * f)
  }

  /** The number of ranks not above `bound`. */
  function CountAtMost(r: seq<Rank>, bound: int): (c: nat)
    ensures c <= |r|
  {
    if r == [] then 0
    else CountAtMost(r[..|r| - 1], bound) + (if r[|r| - 1] <= bound as real then 1 else 0)
  }

  /** `np.mean(ranks <= bound)`: the fraction of ranks not above `bound`, in [0, 1]. */
  function HitsFraction(r: seq<Rank>, bound: int): (h: real)
    requires |r| > 0
    ensures 0.0 <= h <= 1.0
  {
    CountAtMost(r, bound) as real / |r| as real
  }

  /** A larger bound counts at least as many ranks. */
  lemma {:induction false} CountAtMostMonotone(r: seq<Rank>, b1: int, b2: int)
    requires b1 <= b2
    ensures CountAtMost(r, b1) <= CountAtMost(r, b2)
  {
    if r != [] {
      CountAtMostMonotone(r[..|r| - 1], b1, b2);
    }
  }

  /** Every rank is counted once the bound reaches the largest rank; none below 1. */
  lemma {:induction false} CountAtMostExtremes(r: seq<Rank>, bound: int)
    ensures (forall i :: 0 <= i < |r| ==> r[i] <= bound as real) ==> CountAtMost(r, bound) == |r|
    ensures bound < 1 ==> CountAtMost(r, bound) == 0
  {
    if r != [] {
      CountAtMostExtremes(r[..|r| - 1], bound);
    }
  }

  /** hits@k never decreases as the bound grows; it is 1 at the largest rank and 0 below rank 1. */
  lemma HitsFractionProperties(r: seq<Rank>, b1: int, b2: int)
    requires |r| > 0 && b1 <= b2
    ensures HitsFraction(r, b1) <= HitsFraction(r, b2)
    ensures (forall i :: 0 <= i < |r| ==> r[i] <= b1 as real) ==> HitsFraction(r, b1) == 1.0
    ensures b1 < 1 ==> HitsFraction(r, b1) == 0.0
  {
    CountAtMostMonotone(r, b1, b2);
    CountAtMostExtremes(r, b1);
    var n := |r| as real;
    DivideMonotone(CountAtMost(r, b1) as real, CountAtMost(r, b2) as real, n);
  }

  /** A float k picks the bound floor(num_entities * k), which lies in [0, num_entities). */
  lemma FractionThreshold(f: real, n: nat)
    requires 0.0 < f < 1.0
    ensures 0 <= Threshold(FracK(f), n) && (n > 0 ==> Threshold(FracK(f), n) < n)
  {
    var x := n as real * f;
    assert 0.0 <= x;
    if n > 0 {
      assert x < n as real;
    }
  }

  // ---------------------------------------------------------------------------
  // finalize, as a function of the state it reads.

  /** The entries one (side, rank type) pool contributes: its statistics by metric and its hits by k. */
  datatype PairEntries = PairEntries(metrics: map<Metric, Value>, hits: map<HitsK, real>)

  /** `{k: np.mean(ranks <= bound(k)) for k in self.ks}`. */
  function HitsOf(r: seq<Rank>, ks: seq<HitsK>, n: nat): map<HitsK, real>
    requires |r| > 0
  {
    map k | k in ks :: HitsFraction(r, Threshold(k, n))
  }

  /** The adjusted mean rank and its index from the mean rank and the expected mean rank. */
  function Adjusted(rv: map<Metric, Value>, mr: real, em: real): map<Metric, Value>
    requires em > 1.0
  {
    rv[AdjustedArithmeticMeanRank := Num(mr / em)][AdjustedArithmeticMeanRankIndex := Num(1.0 - (mr - 1.0) / (em - 1.0))]
  }

  /**
   * One iteration of the loop of `finalize` over SIDES x RANK_TYPES: nothing for an empty pool;
   * otherwise its hits@k and statistics, plus the adjusted means when the rank type has an expected
   * rank type whose pool is not empty; or the ZeroDivisionError when that expected mean is exactly 1.
   */
  function PairResult(ks: seq<HitsK>, n: nat, buffers: Buffers, side: Side, t: RankType): Result<Option<PairEntries>, EvalError> {
    var r := GetRanks(buffers, side, t);
    if |r| < 1 then Success(None)
    else
      var rv := RankingMetrics(r);
      var hits := HitsOf(r, ks, n);
      match ExpectedRankOf(t)
      case None => Success(Some(PairEntries(rv, hits)))
      case Some(e) =>
        var expected := GetRanks(buffers, side, e);
        if |expected| < 1 then Success(Some(PairEntries(rv, hits)))
        else
          var em := RankMean(expected);
          if em - 1.0 == 0.0 then Failure(AdjustedIndexDivisionByZero(side))
          else Success(Some(PairEntries(Adjusted(rv, RankMean(r), em), hits)))
  }

  /** `asr[metric][side][rank_type] = value` and `hits_at_k[side][rank_type] = hits` for one pool. */
  function Merge(acc: MetricResults, side: Side, t: RankType, e: PairEntries): MetricResults {
    MetricResults(
      acc.asr + (map m | m in e.metrics.Keys :: (m, side, t) := e.metrics[m]),
      acc.hits + (map k | k in e.hits.Keys :: (side, t, k) := e.hits[k]))
  }

  /** Merging sets the pool's metric entries and keeps every other entry. */
  lemma MergeMetric(acc: MetricResults, side: Side, t: RankType, e: PairEntries, m: Metric, s: Side, u: RankType)
    ensures var res := Merge(acc, side, t, e);
      var set_ := s == side && u == t && m in e.metrics;
      && ((m, s, u) in res.asr <==> (m, s, u) in acc.asr || set_)
      && ((m, s, u) in res.asr ==> res.asr[(m, s, u)] == if set_ then e.metrics[m] else acc.asr[(m, s, u)])
  {
  }

  /** Merging sets the pool's hits@k entries and keeps every other entry. */
  lemma MergeHit(acc: MetricResults, side: Side, t: RankType, e: PairEntries, s: Side, u: RankType, k: HitsK)
    ensures var res := Merge(acc, side, t, e);
      var set_ := s == side && u == t && k in e.hits;
      && ((s, u, k) in res.hits <==> (s, u, k) in acc.hits || set_)
      && ((s, u, k) in res.hits ==> res.hits[(s, u, k)] == if set_ then e.hits[k] else acc.hits[(s, u, k)])
  {
  }

  /** `itt.product(SIDES, RANK_TYPES)`, side-major. */
  const PAIRS: seq<(Side, RankType)> := Product(SIDES, RANK_TYPES)

  /** Every side paired with every rank type, side-major. */
  function Product(sides: seq<Side>, types: seq<RankType>): (ps: seq<(Side, RankType)>)
    ensures |ps| == |sides| * |types|
  {
    seq(|sides| * |types|, i requires 0 <= i < |sides| * |types| => (sides[i / |types|], types[i % |types|]))
  }

  /** The pair at position 3·si + ti is side si with rank type ti. */
  lemma PairsAt(si: nat, ti: nat)
    requires si < |SIDES| && ti < |RANK_TYPES|
    ensures 3 * si + ti < |PAIRS| && PAIRS[3 * si + ti] == (SIDES[si], RANK_TYPES[ti])
  {
    var i := 3 * si + ti;
    assert i / 3 == si && i % 3 == ti;
  }

  function SideIndex(side: Side): (si: nat)
    ensures si < |SIDES| && SIDES[si] == side
  {
    match side
    case Head => 0
    case Tail => 1
    case Both => 2
  }

  lemma PairsListed(side: Side, t: RankType)
    ensures (side, t) in PAIRS <==> IsBaseRankType(t)
  {
    if IsBaseRankType(t) {
      var ti := if t == Optimistic then 0 else if t == Realistic then 1 else 2;
      PairsAt(SideIndex(side), ti);
    }
  }

  type PairOutcome = Result<Option<PairEntries>, EvalError>

  /** The outcome of every (side, rank type) iteration, for fixed ks, number of entities and buffers. */
  function PairResults(ks: seq<HitsK>, n: nat, buffers: Buffers): ((Side, RankType)) -> PairOutcome {
    (p: (Side, RankType)) => PairResult(ks, n, buffers, p.0, p.1)
  }

  /** The table after one more iteration: the error it raises, or the table with its pool's entries merged in. */
  function Step(acc: MetricResults, side: Side, t: RankType, p: PairOutcome): Result<MetricResults, EvalError> {
    match p
    case Failure(e) => Failure(e)
    case Success(None) => Success(acc)
    case Success(Some(entries)) => Success(Merge(acc, side, t, entries))
  }

  /** The loop of `finalize` over the first pairs, given each iteration's outcome: the table so far, or the first error raised. */
  function FoldPairs(f: ((Side, RankType)) -> PairOutcome, pairs: seq<(Side, RankType)>): Result<MetricResults, EvalError> {
    if pairs == [] then Success(MetricResults(map[], map[]))
    else
      match FoldPairs(f, pairs[..|pairs| - 1])
      case Failure(e) => Failure(e)
      case Success(acc) =>
        var last := pairs[|pairs| - 1];
        Step(acc, last.0, last.1, f(last))
  }

  /** `finalize`, read as a function of `ks`, `num_entities` and the buffers. */
  function FinalizeSpec(ks: seq<HitsK>, numEntities: Option<nat>, buffers: Buffers): Result<MetricResults, EvalError> {
    match numEntities
    case None => Failure(NoNumEntities)
    case Some(n) => FoldPairs(PairResults(ks, n, buffers), PAIRS)
  }

  /** One iteration of the loop extends the table computed by the earlier ones. */
  lemma FoldPairsStep(f: ((Side, RankType)) -> PairOutcome, pairs: seq<(Side, RankType)>, i: nat, acc: MetricResults)
    requires i < |pairs| && FoldPairs(f, pairs[..i]) == Success(acc)
    ensures FoldPairs(f, pairs[..i + 1]) == Step(acc, pairs[i].0, pairs[i].1, f(pairs[i]))
  {
    assert pairs[..i + 1][..i] == pairs[..i];
  }

  /** Once an iteration raises, the loop raises that same error. */
  lemma {:induction false} FailurePersists(f: ((Side, RankType)) -> PairOutcome, pairs: seq<(Side, RankType)>, i: nat)
    requires i <= |pairs| && FoldPairs(f, pairs[..i]).Failure?
    ensures FoldPairs(f, pairs) == FoldPairs(f, pairs[..i])
  {
    if i == |pairs| {
      assert pairs[..i] == pairs;
    } else {
      var init := pairs[..|pairs| - 1];
      assert init[..i] == pairs[..i];
      FailurePersists(f, init, i);
    }
  }

  /** The metric entries an iteration contributes (none when its pool is empty or it raises). */
  function MetricsOf(p: PairOutcome): map<Metric, Value> {
    match p
    case Success(Some(e)) => e.metrics
    case _ => map[]
  }

  /** The hits@k entries an iteration contributes (none when its pool is empty or it raises). */
  function HitsOfOutcome(p: PairOutcome): map<HitsK, real> {
    match p
    case Success(Some(e)) => e.hits
    case _ => map[]
  }

  /** The loop raises exactly when one of its iterations does. */
  lemma {:induction false} FoldPairsFailure(f: ((Side, RankType)) -> PairOutcome, pairs: seq<(Side, RankType)>)
    ensures FoldPairs(f, pairs).Failure? <==> exists j :: 0 <= j < |pairs| && f(pairs[j]).Failure?
  {
    if pairs != [] {
      var init := pairs[..|pairs| - 1];
      var last := pairs[|pairs| - 1];
      FoldPairsFailure(f, init);
      assert forall j :: 0 <= j < |init| ==> init[j] == pairs[j];
      if exists j :: 0 <= j < |pairs| && f(pairs[j]).Failure? {
        var j :| 0 <= j < |pairs| && f(pairs[j]).Failure?;
        if j < |init| {
          assert f(init[j]).Failure?;
        }
      }
      if FoldPairs(f, pairs).Failure? && FoldPairs(f, init).Success? {
        assert f(last).Failure?;
      }
    }
  }

  /** The error the loop raises is the error of one of its iterations. */
  lemma {:induction false} FoldPairsError(f: ((Side, RankType)) -> PairOutcome, pairs: seq<(Side, RankType)>)
    requires FoldPairs(f, pairs).Failure?
    ensures exists j :: 0 <= j < |pairs| && f(pairs[j]) == Failure(FoldPairs(f, pairs).error)
  {
    var init := pairs[..|pairs| - 1];
    var last := pairs[|pairs| - 1];
    if FoldPairs(f, init).Failure? {
      FoldPairsError(f, init);
      var j :| 0 <= j < |init| && f(init[j]) == Failure(FoldPairs(f, init).error);
      assert init[j] == pairs[j];
    } else {
      assert f(pairs[|pairs| - 1]) == Failure(FoldPairs(f, pairs).error);
    }
  }

  /**
   * When the loop does not raise, its table holds a metric entry for a (side, rank type) pair exactly
   * when the pair is listed and its iteration computed that metric, with the value computed.
   */
  lemma {:induction false} FoldPairsMetric(f: ((Side, RankType)) -> PairOutcome, pairs: seq<(Side, RankType)>, m: Metric, side: Side, t: RankType)
    requires FoldPairs(f, pairs).Success?
    ensures var res := FoldPairs(f, pairs).value;
      && ((m, side, t) in res.asr <==> (side, t) in pairs && m in MetricsOf(f((side, t))))
      && ((m, side, t) in res.asr ==> res.asr[(m, side, t)] == MetricsOf(f((side, t)))[m])
  {
    if pairs != [] {
      var init := pairs[..|pairs| - 1];
      var last := pairs[|pairs| - 1];
      FoldPairsMetric(f, init, m, side, t);
      assert pairs == init + [last];
      assert (side, t) in pairs <==> (side, t) in init || last == (side, t);
      var acc := FoldPairs(f, init).value;
      var p := f(last);
      assert FoldPairs(f, pairs) == Step(acc, last.0, last.1, p);
      if last == (side, t) {
        assert f((side, t)) == p;
      }
      if p.Success? && p.value.Some? {
        MergeMetric(acc, last.0, last.1, p.value.value, m, side, t);
        assert MetricsOf(p) == p.value.value.metrics;
      } else {
        assert FoldPairs(f, pairs).value == acc;
        assert MetricsOf(p) == map[];
      }
    }
  }

  /**
   * When the loop does not raise, its table holds a hits@k entry for a (side, rank type) pair exactly
   * when the pair is listed and its iteration computed hits at that k, with the value computed.
   */
  lemma {:induction false} FoldPairsHit(f: ((Side, RankType)) -> PairOutcome, pairs: seq<(Side, RankType)>, side: Side, t: RankType, k: HitsK)
    requires FoldPairs(f, pairs).Success?
    ensures var res := FoldPairs(f, pairs).value;
      && ((side, t, k) in res.hits <==> (side, t) in pairs && k in HitsOfOutcome(f((side, t))))
      && ((side, t, k) in res.hits ==> res.hits[(side, t, k)] == HitsOfOutcome(f((side, t)))[k])
  {
    if pairs != [] {
      var init := pairs[..|pairs| - 1];
      var last := pairs[|pairs| - 1];
      FoldPairsHit(f, init, side, t, k);
      assert pairs == init + [last];
      assert (side, t) in pairs <==> (side, t) in init || last == (side, t);
      var acc := FoldPairs(f, init).value;
      var p := f(last);
      assert FoldPairs(f, pairs) == Step(acc, last.0, last.1, p);
      if last == (side, t) {
        assert f((side, t)) == p;
      }
      if p.Success? && p.value.Some? {
        MergeHit(acc, last.0, last.1, p.value.value, side, t, k);
        assert HitsOfOutcome(p) == p.value.value.hits;
      } else {
        assert FoldPairs(f, pairs).value == acc;
        assert HitsOfOutcome(p) == map[];
      }
    }
  }

  /** The metric entries the pool of one pair contributes to the table of `finalize`. */
  function PairMetrics(ks: seq<HitsK>, n: nat, buffers: Buffers, side: Side, t: RankType): map<Metric, Value> {
    MetricsOf(PairResult(ks, n, buffers, side, t))
  }

  /** The hits@k entries the pool of one pair contributes to the table of `finalize`. */
  function PairHits(ks: seq<HitsK>, n: nat, buffers: Buffers, side: Side, t: RankType): map<HitsK, real> {
    HitsOfOutcome(PairResult(ks, n, buffers, side, t))
  }

  // ---------------------------------------------------------------------------
  // Properties of finalize.

  /** When an expected mean rank is exactly 1: the only case in which a pool's iteration raises. */
  predicate AdjustedIndexUndefined(buffers: Buffers, side: Side, t: RankType) {
    && |GetRanks(buffers, side, t)| > 0
    && ExpectedRankOf(t).Some?
    && |GetRanks(buffers, side, ExpectedRankOf(t).value)| > 0
    && RankMean(GetRanks(buffers, side, ExpectedRankOf(t).value)) == 1.0
  }

  /** Whether the adjusted mean rank and its index are computed for a pool: a non-empty realistic pool with a non-empty expected pool. */
  predicate HasAdjusted(buffers: Buffers, side: Side, t: RankType) {
    t == Realistic && |GetRanks(buffers, side, t)| > 0 && |GetRanks(buffers, side, ExpectedRealistic)| > 0
  }

  /** A pool's iteration raises exactly when its expected mean rank is 1. */
  lemma PairFails(ks: seq<HitsK>, n: nat, buffers: Buffers, side: Side, t: RankType)
    ensures PairResult(ks, n, buffers, side, t).Failure? <==> AdjustedIndexUndefined(buffers, side, t)
    ensures PairResult(ks, n, buffers, side, t).Failure? ==> PairResult(ks, n, buffers, side, t).error == AdjustedIndexDivisionByZero(side)
  {
  }

  /** The metric entries of a non-empty pool that does not raise: its statistics, adjusted when `HasAdjusted`. */
  function PoolMetrics(buffers: Buffers, side: Side, t: RankType): map<Metric, Value>
    requires |GetRanks(buffers, side, t)| > 0 && !AdjustedIndexUndefined(buffers, side, t)
  {
    var r := GetRanks(buffers, side, t);
    if HasAdjusted(buffers, side, t) then Adjusted(RankingMetrics(r), RankMean(r), RankMean(GetRanks(buffers, side, ExpectedRealistic)))
    else RankingMetrics(r)
  }

  lemma PairResultOfPool(ks: seq<HitsK>, n: nat, buffers: Buffers, side: Side, t: RankType)
    requires !AdjustedIndexUndefined(buffers, side, t)
    ensures |GetRanks(buffers, side, t)| == 0 ==> PairResult(ks, n, buffers, side, t) == Success(None)
    ensures |GetRanks(buffers, side, t)| > 0 ==>
      PairResult(ks, n, buffers, side, t)
        == Success(Some(PairEntries(PoolMetrics(buffers, side, t), HitsOf(GetRanks(buffers, side, t), ks, n))))
  {
  }

  /**
   * What a pool that does not raise contributes: nothing when empty; otherwise hits@k for the configured
   * ks and every registry statistic.
   */
  lemma PairContents(ks: seq<HitsK>, n: nat, buffers: Buffers, side: Side, t: RankType)
    requires !AdjustedIndexUndefined(buffers, side, t)
    ensures var r := GetRanks(buffers, side, t);
      var metrics := PairMetrics(ks, n, buffers, side, t);
      var hits := PairHits(ks, n, buffers, side, t);
      && (|r| == 0 ==> metrics == map[] && hits == map[])
      && (|r| > 0 ==> hits == HitsOf(r, ks, n) && forall m :: IsTypeFunc(m) ==> m in metrics && metrics[m] == RankingMetrics(r)[m])
  {
    PairResultOfPool(ks, n, buffers, side, t);
  }

  /**
   * A pool that does not raise has the adjusted mean rank and its index exactly when `HasAdjusted`,
   * as MR / E[MR] and 1 - (MR - 1) / (E[MR] - 1), with E[MR] above 1.
   */
  lemma PairAdjusted(ks: seq<HitsK>, n: nat, buffers: Buffers, side: Side, t: RankType)
    requires !AdjustedIndexUndefined(buffers, side, t)
    ensures var metrics := PairMetrics(ks, n, buffers, side, t);
      && (AdjustedArithmeticMeanRank in metrics <==> HasAdjusted(buffers, side, t))
      && (AdjustedArithmeticMeanRankIndex in metrics <==> HasAdjusted(buffers, side, t))
      && (HasAdjusted(buffers, side, t) ==>
            var mr := RankMean(GetRanks(buffers, side, t));
            var em := RankMean(GetRanks(buffers, side, ExpectedRealistic));
            && em > 1.0
            && metrics[AdjustedArithmeticMeanRank] == Num(mr / em)
            && metrics[AdjustedArithmeticMeanRankIndex] == Num(1.0 - (mr - 1.0) / (em - 1.0)))
  {
    PairResultOfPool(ks, n, buffers, side, t);
  }

  /**
   * `finalize` raises the ValueError exactly when `num_entities` was never set, and otherwise raises
   * the ZeroDivisionError exactly when some side's realistic pool has an expected mean rank of 1.
   */
  lemma FinalizeFailures(ks: seq<HitsK>, numEntities: Option<nat>, buffers: Buffers)
    ensures numEntities.None? ==> FinalizeSpec(ks, numEntities, buffers) == Failure(NoNumEntities)
    ensures numEntities.Some? ==>
      (FinalizeSpec(ks, numEntities, buffers).Failure? <==>
        exists side :: AdjustedIndexUndefined(buffers, side, Realistic))
  {
    if numEntities.Some? {
      var n := numEntities.value;
      var f := PairResults(ks, n, buffers);
      FoldPairsFailure(f, PAIRS);
      if exists side :: AdjustedIndexUndefined(buffers, side, Realistic) {
        var side :| AdjustedIndexUndefined(buffers, side, Realistic);
        RealisticPairRaises(ks, n, buffers, side);
      }
      if FinalizeSpec(ks, numEntities, buffers).Failure? {
        var j :| 0 <= j < |PAIRS| && f(PAIRS[j]).Failure?;
        PairResultsFail(ks, n, buffers, PAIRS[j]);
        assert AdjustedIndexUndefined(buffers, PAIRS[j].0, Realistic);
      }
    }
  }

  /** The iteration of a pair raises exactly when the pair's expected mean rank is 1. */
  lemma PairResultsFail(ks: seq<HitsK>, n: nat, buffers: Buffers, p: (Side, RankType))
    ensures PairResults(ks, n, buffers)(p).Failure? <==> AdjustedIndexUndefined(buffers, p.0, p.1)
  {
    assert PairResults(ks, n, buffers)(p) == PairResult(ks, n, buffers, p.0, p.1);
    PairFails(ks, n, buffers, p.0, p.1);
  }

  /** A realistic pool whose expected mean rank is 1 makes its iteration of the loop raise. */
  lemma RealisticPairRaises(ks: seq<HitsK>, n: nat, buffers: Buffers, side: Side)
    requires AdjustedIndexUndefined(buffers, side, Realistic)
    ensures exists j :: 0 <= j < |PAIRS| && PairResults(ks, n, buffers)(PAIRS[j]).Failure?
  {
    PairsListed(side, Realistic);
    var j :| 0 <= j < |PAIRS| && PAIRS[j] == (side, Realistic);
    PairResultsFail(ks, n, buffers, PAIRS[j]);
  }

  /** Once `num_entities` is set, what `finalize` raises is the ZeroDivisionError of a side whose realistic pool has an expected mean rank of 1. */
  lemma FinalizeError(ks: seq<HitsK>, n: nat, buffers: Buffers)
    requires FinalizeSpec(ks, Some(n), buffers).Failure?
    ensures exists side :: FinalizeSpec(ks, Some(n), buffers).error == AdjustedIndexDivisionByZero(side)
                           && AdjustedIndexUndefined(buffers, side, Realistic)
  {
    var f := PairResults(ks, n, buffers);
    FoldPairsError(f, PAIRS);
    var j :| 0 <= j < |PAIRS| && f(PAIRS[j]) == Failure(FinalizeSpec(ks, Some(n), buffers).error);
    var side, t := PAIRS[j].0, PAIRS[j].1;
    assert f(PAIRS[j]) == PairResult(ks, n, buffers, side, t);
    PairFails(ks, n, buffers, side, t);
  }

  /** In a table `finalize` returns, no listed pool raised. */
  lemma FinalizeSucceeded(ks: seq<HitsK>, n: nat, buffers: Buffers, side: Side, t: RankType)
    requires FinalizeSpec(ks, Some(n), buffers).Success?
    ensures !AdjustedIndexUndefined(buffers, side, t)
  {
    FinalizeFailures(ks, Some(n), buffers);
  }

  /**
   * The table `finalize` returns: a pair with an empty pool has no entries; a pair with ranks has
   * every registry statistic of its pool and hits@k for exactly the configured ks, each the fraction
   * of ranks within the bound, in [0, 1]; the expected rank type (not itself in RANK_TYPES) has none.
   */
  lemma FinalizeTable(ks: seq<HitsK>, n: nat, buffers: Buffers, side: Side, t: RankType)
    requires FinalizeSpec(ks, Some(n), buffers).Success?
    ensures var res := FinalizeSpec(ks, Some(n), buffers).value;
      var r := GetRanks(buffers, side, t);
      && (!IsBaseRankType(t) || |r| == 0 ==>
            (forall m :: (m, side, t) !in res.asr) && (forall k :: (side, t, k) !in res.hits))
      && (IsBaseRankType(t) && |r| > 0 ==>
            && (forall m :: IsTypeFunc(m) ==> (m, side, t) in res.asr && res.asr[(m, side, t)] == RankingMetrics(r)[m])
            && (forall k :: (side, t, k) in res.hits <==> k in ks)
            && (forall k :: k in ks ==> res.hits[(side, t, k)] == HitsFraction(r, Threshold(k, n))))
      && (forall k :: (side, t, k) in res.hits ==> 0.0 <= res.hits[(side, t, k)] <= 1.0)
  {
    var f := PairResults(ks, n, buffers);
    assert f((side, t)) == PairResult(ks, n, buffers, side, t);
    forall m {
      FoldPairsMetric(f, PAIRS, m, side, t);
    }
    forall k {
      FoldPairsHit(f, PAIRS, side, t, k);
    }
    PairsListed(side, t);
    FinalizeSucceeded(ks, n, buffers, side, t);
    PairContents(ks, n, buffers, side, t);
  }

  /**
   * The adjusted mean rank and its index are recorded only for a non-empty realistic pool whose expected
   * pool is not empty, as AAMR = MR / E[MR] and AAMRI = 1 - (MR - 1) / (E[MR] - 1).
   */
  lemma FinalizeAdjusted(ks: seq<HitsK>, n: nat, buffers: Buffers, side: Side, t: RankType)
    requires FinalizeSpec(ks, Some(n), buffers).Success?
    ensures var res := FinalizeSpec(ks, Some(n), buffers).value;
      var present := HasAdjusted(buffers, side, t);
      && ((AdjustedArithmeticMeanRank, side, t) in res.asr <==> present)
      && ((AdjustedArithmeticMeanRankIndex, side, t) in res.asr <==> present)
      && (present ==>
            var mr := RankMean(GetRanks(buffers, side, t));
            var em := RankMean(GetRanks(buffers, side, ExpectedRealistic));
            && em > 1.0
            && res.asr[(AdjustedArithmeticMeanRank, side, t)] == Num(mr / em)
            && res.asr[(AdjustedArithmeticMeanRankIndex, side, t)] == Num(1.0 - (mr - 1.0) / (em - 1.0)))
  {
    var f := PairResults(ks, n, buffers);
    assert f((side, t)) == PairResult(ks, n, buffers, side, t);
    forall m {
      FoldPairsMetric(f, PAIRS, m, side, t);
    }
    forall k {
      FoldPairsHit(f, PAIRS, side, t, k);
    }
    PairsListed(side, t);
    FinalizeSucceeded(ks, n, buffers, side, t);
    PairAdjusted(ks, n, buffers, side, t);
  }

  // ---------------------------------------------------------------------------
  // The evaluator object.

  class RankBasedEvaluator {
    var ks: seq<HitsK>
    var ranks: Buffers
    var numEntities: Option<nat>

    constructor(ks: seq<HitsK>)
      ensures this.ks == ks && ranks == map[] && numEntities == None
    {
      this.ks := ks;
      ranks := map[];
      numEntities := None;
    }

    /** `__init__`: ks default to (1, 3, 5, 10); the first float k outside (0, 1) raises the ValueError. */
    static method Create(ks: Option<seq<HitsK>>) returns (r: Result<RankBasedEvaluator, EvalError>)
      ensures var given := ks.GetOr(DEFAULT_KS);
        && (r.Success? <==> forall k :: k in given ==> ValidK(k))
        && (r.Failure? ==> exists j :: 0 <= j < |given| && r.error == InvalidK(given[j]) && !ValidK(given[j])
                                     && forall i :: 0 <= i < j ==> ValidK(given[i]))
        && (r.Success? ==> fresh(r.value) && r.value.ks == given && r.value.ranks == map[] && r.value.numEntities == None)
    {
      var given := ks.GetOr(DEFAULT_KS);
      for i := 0 to |given|
        invariant forall j :: 0 <= j < i ==> ValidK(given[j])
      {
        if !ValidK(given[i]) {
          return Failure(InvalidK(given[i]));
        }
      }
      var e := new RankBasedEvaluator(given);
      return Success(e);
    }

    /**
     * `process_scores_`: without true scores the ValueError; otherwise the batch's ranks of every type
     * are appended to the target's buffers and `num_entities` becomes the number of score columns.
     */
    method ProcessScores(target: Target, scores: ScoreMatrix, trueScores: Option<seq<real>>, ranker: Ranker)
      returns (r: Result<(), EvalError>)
      modifies this
      ensures ks == old(ks)
      ensures trueScores.None? ==> r == Failure(MissingTrueScores) && ranks == old(ranks) && numEntities == old(numEntities)
      ensures trueScores.Some? ==>
        && r == Success(())
        && ranks == Appended(old(ranks), target, ranker(trueScores.value, scores))
        && numEntities == Some(scores.width)
    {
      if trueScores.None? {
        return Failure(MissingTrueScores);
      }
      var batch := ranker(trueScores.value, scores);
      numEntities := Some(scores.width);
      for i := 0 to |EXTENDED_RANK_TYPES|
        invariant ranks == AppendTypes(old(ranks), target, batch, EXTENDED_RANK_TYPES[..i])
        invariant ks == old(ks) && numEntities == Some(scores.width)
      {
        var t := EXTENDED_RANK_TYPES[i];
        assert EXTENDED_RANK_TYPES[..i + 1][..i] == EXTENDED_RANK_TYPES[..i];
        if t in batch {
          ranks := ranks[(target, t) := BufferOf(ranks, (target, t)) + batch[t]];
        }
      }
      assert EXTENDED_RANK_TYPES[..|EXTENDED_RANK_TYPES|] == EXTENDED_RANK_TYPES;
      return Success(());
    }

    /** `_get_ranks`. */
    function Ranks(side: Side, t: RankType): seq<Rank>
      reads this
    {
      GetRanks(ranks, side, t)
    }

    /**
     * The body of the loop of `finalize` for one (side, rank type) pair: nothing for an empty pool,
     * otherwise its hits@k and statistics and, for a rank type with an expected one, the adjusted mean
     * rank and its index.
     */
    method FinalizePair(n: nat, side: Side, t: RankType) returns (p: PairOutcome)
      ensures p == PairResult(ks, n, ranks, side, t)
    {
      var pool := Ranks(side, t);
      if |pool| < 1 {
        return Success(None);
      }
      var hits := map k | k in ks :: HitsFraction(pool, Threshold(k, n));
      var rv := GetRankingMetrics(pool);
      var expectedType := ExpectedRankOf(t);
      if expectedType.Some? {
        var expected := Ranks(side, expectedType.value);
        if 0 < |expected| {
          var em := RankMean(expected);
          RankingMetricsMeanRank(pool);
          var mr := rv[ArithmeticMeanRank].x;
          if em - 1.0 == 0.0 {
            return Failure(AdjustedIndexDivisionByZero(side));
          }
          rv := rv[AdjustedArithmeticMeanRank := Num(mr / em)];
          rv := rv[AdjustedArithmeticMeanRankIndex := Num(1.0 - (mr - 1.0) / (em - 1.0))];
        }
      }
      return Success(Some(PairEntries(rv, hits)));
    }

    /**
     * `finalize`: the table of `FinalizeSpec` over the current state. On success the buffers are
     * cleared; when it raises, nothing has changed.
     */
    method Finalize() returns (r: Result<MetricResults, EvalError>)
      modifies this
      ensures r == FinalizeSpec(old(ks), old(numEntities), old(ranks))
      ensures ks == old(ks) && numEntities == old(numEntities)
      ensures ranks == if r.Success? then map[] else old(ranks)
    {
      if numEntities.None? {
        return Failure(NoNumEntities);
      }
      var n := numEntities.value;
      var f := PairResults(ks, n, ranks);
      var acc := MetricResults(map[], map[]);
      for i := 0 to |PAIRS|
        invariant FoldPairs(f, PAIRS[..i]) == Success(acc)
        invariant ks == old(ks) && ranks == old(ranks) && numEntities == old(numEntities)
      {
        var (side, t) := PAIRS[i];
        var p := FinalizePair(n, side, t);
        FoldPairsStep(f, PAIRS, i, acc);
        assert f(PAIRS[i]) == p;
        match p
        case Failure(e) =>
          FailurePersists(f, PAIRS, i + 1);
          return Failure(e);
        case Success(None) =>
        case Success(Some(entries)) =>
          acc := Merge(acc, side, t, entries);
      }
      assert PAIRS[..|PAIRS|] == PAIRS;
      ranks := map[];
      return Success(acc);
    }
  }
}
