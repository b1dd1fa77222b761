/**
 * SampledRankBasedEvaluator (rank_based_evaluator.py, lines 455-549): a rank-based evaluator that scores
 * each true triple against a fixed row of negative entities instead of against every entity. The
 * negatives are given per side or sampled by `sample_negatives`; each batch's score matrix is narrowed
 * to the true score followed by the scores of the triple's negatives, and `num_entities` is then put
 * back to the full candidate count.
 *
 * The Python class extends RankBasedEvaluator; here it holds one and forwards to it.
 */
module SampledEvaluator {
  import opened Wrappers
  import opened Vocabulary
  import opened Results
  import opened Evaluator
  import opened Sampling

  /** What the sampled evaluator raises. */
  datatype SampledError =
    | BaseError(base: EvalError)               // raised by the rank-based evaluator's initialisation
    | SamplingError(sampling: SampleError)     // raised by sample_negatives
    | TooManyNegatives                         // ValueError: more negatives than entities
    | OneSideOfNegatives                       // ValueError: only one of the head and tail tables given
    | WrongRowCount(side: Target)              // ValueError: a table's row count is not the triple count
    | NoTrueScores                             // ValueError of process_scores_
    | UnknownTriple(triple: Triple)            // KeyError of triple_to_index
    | NegativeIdOutOfRange                     // IndexError of the gather
    | BatchShapeMismatch                       // RuntimeError of torch.cat

  /** `num_negatives or 50`. */
  function NumNegatives(numNegatives: Option<nat>): (k: nat)
    ensures k > 0
    ensures numNegatives.Some? && numNegatives.value != 0 ==> k == numNegatives.value
    ensures numNegatives.None? || numNegatives.value == 0 ==> k == 50
  {
    if numNegatives.None? || numNegatives.value == 0 then 50 else numNegatives.value
  }

  /** `{(h, r, t): i for i, (h, r, t) in enumerate(triples)}`. */
  function TripleIndex(triples: seq<Triple>): (index: map<Triple, nat>)
    ensures forall tr :: tr in index <==> tr in triples
    ensures forall tr :: tr in index ==> index[tr] < |triples| && triples[index[tr]] == tr
  {
    if triples == [] then map[]
    else
      var n := |triples| - 1;
      TripleIndex(triples[..n])[triples[n] := n]
  }

  /** A triple listed more than once keeps the index of its last occurrence. */
  lemma {:induction false} TripleIndexIsLast(triples: seq<Triple>, j: nat)
    requires j < |triples|
    ensures j <= TripleIndex(triples)[triples[j]]
  {
    var n := |triples| - 1;
    if j < n && triples[j] != triples[n] {
      TripleIndexIsLast(triples[..n], j);
    }
  }

  /** Whether every stored index has a row in the table. */
  predicate RowsCover(index: map<Triple, nat>, table: IdMatrix) {
    forall tr :: tr in index ==> index[tr] < |table.rows|
  }

  /** `self.triple_to_index[h, r, t]` for each triple of the batch, or the KeyError of the first unknown one. */
  function BatchIndices(index: map<Triple, nat>, batch: seq<Triple>): (r: Result<seq<nat>, SampledError>)
    ensures r.Success? ==> |r.value| == |batch| && forall b :: 0 <= b < |batch| ==> batch[b] in index && r.value[b] == index[batch[b]]
  {
    if batch == [] then Success([])
    else
      var n := |batch| - 1;
      match BatchIndices(index, batch[..n])
      case Failure(e) => Failure(e)
      case Success(init) =>
        if batch[n] in index then Success(init + [index[batch[n]]]) else Failure(UnknownTriple(batch[n]))
  }

  /** The lookup fails exactly on a batch with an unknown triple, and names the first one. */
  lemma {:induction false} BatchIndicesFailure(index: map<Triple, nat>, batch: seq<Triple>)
    ensures BatchIndices(index, batch).Failure? <==> exists b :: 0 <= b < |batch| && batch[b] !in index
    ensures BatchIndices(index, batch).Failure? ==>
      exists b :: 0 <= b < |batch| && batch[b] !in index && BatchIndices(index, batch).error == UnknownTriple(batch[b])
        && forall c :: 0 <= c < b ==> batch[c] in index
  {
    if batch != [] {
      var n := |batch| - 1;
      BatchIndicesFailure(index, batch[..n]);
      assert forall c :: 0 <= c < n ==> batch[..n][c] == batch[c];
      if BatchIndices(index, batch[..n]).Success? && batch[n] in index {
        assert forall c :: 0 <= c < n ==> batch[c] in index;
      }
    }
  }

  /** Torch's negative indexing: an id in [-W, W) reads column id mod W. */
  predicate InColumnRange(id: int, width: nat) {
    -(width as int) <= id < width
  }

  function ColumnOf(id: int, width: nat): (c: nat)
    requires InColumnRange(id, width)
    ensures c < width && (c == id || c == id + width)
  {
    if id < 0 then id + width else id
  }

  /** Whether `scores[arange(B)[:, None], ids]` stays in range: a score row per batch row and every id a column. */
  predicate Gatherable(scores: ScoreMatrix, ids: seq<seq<int>>) {
    && |ids| <= |scores.rows|
    && forall b, j :: 0 <= b < |ids| && 0 <= j < |ids[b]| ==> InColumnRange(ids[b][j], scores.width)
  }

  /** The gathered negative scores: row b holds the scores of row b at the columns its ids name. */
  function Gather(scores: ScoreMatrix, ids: seq<seq<int>>): (g: seq<seq<real>>)
    requires WellShaped(scores) && Gatherable(scores, ids)
    ensures |g| == |ids| && forall b :: 0 <= b < |ids| ==> |g[b]| == |ids[b]|
  {
    seq(|ids|, b requires 0 <= b < |ids| =>
      seq(|ids[b]|, j requires 0 <= j < |ids[b]| => scores.rows[b][ColumnOf(ids[b][j], scores.width)]))
  }

  /** `negative_samples[target][triple_indices]`: the table's rows for the batch's indices. */
  function RowsAt(table: IdMatrix, idx: seq<nat>): (ids: seq<seq<int>>)
    requires forall b :: 0 <= b < |idx| ==> idx[b] < |table.rows|
    ensures |ids| == |idx| && forall b :: 0 <= b < |idx| ==> ids[b] == table.rows[idx[b]]
  {
    seq(|idx|, b requires 0 <= b < |idx| => table.rows[idx[b]])
  }

  /**
   * The score matrix `process_scores_` hands to the rank-based evaluator: for each triple of the batch,
   * its true score followed by the scores of its negatives; or the error raised on the way.
   */
  function SampledScores(index: map<Triple, nat>, table: IdMatrix, batch: seq<Triple>, scores: ScoreMatrix, trueScores: seq<real>): Result<ScoreMatrix, SampledError>
    requires RowsCover(index, table) && WellShaped(scores)
  {
    match BatchIndices(index, batch)
    case Failure(e) => Failure(e)
    case Success(idx) =>
      var ids := RowsAt(table, idx);
      if !Gatherable(scores, ids) then Failure(NegativeIdOutOfRange)
      else if |trueScores| != |batch| then Failure(BatchShapeMismatch)
      else
        var g := Gather(scores, ids);
        Success(ScoreMatrix(1 + table.width, seq(|batch|, b requires 0 <= b < |batch| => [trueScores[b]] + g[b])))
  }

  /**
   * A narrowed score matrix has one row per triple of the batch and 1 + the table's width columns: the
   * true score first, then at column 1 + j the score of the j-th negative of the triple's row.
   */
  lemma SampledScoresContents(index: map<Triple, nat>, table: IdMatrix, batch: seq<Triple>, scores: ScoreMatrix, trueScores: seq<real>)
    requires RowsCover(index, table) && WellShaped(scores) && Rectangular(table)
    requires SampledScores(index, table, batch, scores, trueScores).Success?
    ensures var m := SampledScores(index, table, batch, scores, trueScores).value;
      && m.width == 1 + table.width && WellShaped(m) && |m.rows| == |batch|
      && forall b :: 0 <= b < |batch| ==>
           && batch[b] in index
           && m.rows[b][0] == trueScores[b]
           && forall j :: 0 <= j < table.width ==>
                var id := table.rows[index[batch[b]]][j];
                InColumnRange(id, scores.width) && m.rows[b][1 + j] == scores.rows[b][ColumnOf(id, scores.width)]
  {
    var idx := BatchIndices(index, batch).value;
    var ids := RowsAt(table, idx);
    var g := Gather(scores, ids);
    var m := SampledScores(index, table, batch, scores, trueScores).value;
    forall b | 0 <= b < |batch|
      ensures |m.rows[b]| == 1 + table.width && m.rows[b][0] == trueScores[b]
      ensures forall j :: 0 <= j < table.width ==>
                var id := table.rows[index[batch[b]]][j];
                InColumnRange(id, scores.width) && m.rows[b][1 + j] == scores.rows[b][ColumnOf(id, scores.width)]
    {
      assert m.rows[b] == [trueScores[b]] + g[b];
      assert ids[b] == table.rows[index[batch[b]]];
    }
  }

  /**
   * The narrowing succeeds exactly when every triple of the batch is known, the score matrix has a row
   * per triple and every id of their rows is a column, and the true scores are one per triple.
   */
  lemma SampledScoresSucceeds(index: map<Triple, nat>, table: IdMatrix, batch: seq<Triple>, scores: ScoreMatrix, trueScores: seq<real>)
    requires RowsCover(index, table) && WellShaped(scores)
    ensures SampledScores(index, table, batch, scores, trueScores).Success? <==>
      && (forall b :: 0 <= b < |batch| ==> batch[b] in index)
      && |batch| <= |scores.rows|
      && (forall b, j :: 0 <= b < |batch| && 0 <= j < |table.rows[index[batch[b]]]| ==>
            InColumnRange(table.rows[index[batch[b]]][j], scores.width))
      && |trueScores| == |batch|
  {
    BatchIndicesFailure(index, batch);
    if BatchIndices(index, batch).Success? {
      var idx := BatchIndices(index, batch).value;
      var ids := RowsAt(table, idx);
      assert forall b :: 0 <= b < |batch| ==> ids[b] == table.rows[index[batch[b]]];
    }
  }

  /** What the constructor raises after the rank-based initialisation, in the order it checks. */
  function NegativesFailure(evalTriples: seq<Triple>, numEntities: nat, filter: seq<Triple>, numNegatives: Option<nat>,
                            headNegatives: Option<IdMatrix>, tailNegatives: Option<IdMatrix>): Option<SampledError> {
    if headNegatives.None? && tailNegatives.None? then
      var k := NumNegatives(numNegatives);
      if k > numEntities then Some(TooManyNegatives)
      else
        match SampleFailure(evalTriples, filter, k, Some(numEntities))
        case Some(e) => Some(SamplingError(e))
        case None => None
    else if headNegatives.None? || tailNegatives.None? then Some(OneSideOfNegatives)
    else if |headNegatives.value.rows| != |evalTriples| then Some(WrongRowCount(Head))
    else if |tailNegatives.value.rows| != |evalTriples| then Some(WrongRowCount(Tail))
    else None
  }

  /** The constructor's rejections: too many negatives, one table without the other, a table of the wrong height. */
  lemma NegativesFailureCases(evalTriples: seq<Triple>, numEntities: nat, filter: seq<Triple>, numNegatives: Option<nat>,
                              headNegatives: Option<IdMatrix>, tailNegatives: Option<IdMatrix>)
    ensures var f := NegativesFailure(evalTriples, numEntities, filter, numNegatives, headNegatives, tailNegatives);
      && (f == Some(TooManyNegatives) <==> headNegatives.None? && tailNegatives.None? && NumNegatives(numNegatives) > numEntities)
      && (f == Some(OneSideOfNegatives) <==> headNegatives.None? != tailNegatives.None?)
      && (headNegatives.Some? && tailNegatives.Some? ==>
            (f.None? <==> |headNegatives.value.rows| == |evalTriples| && |tailNegatives.value.rows| == |evalTriples|))
      && (f.Some? && f.value.SamplingError? ==> f.value.sampling.EmptyPool?)
  {
    if headNegatives.None? && tailNegatives.None? && NumNegatives(numNegatives) <= numEntities {
      SampleFailsOnlyForEmptyPools(evalTriples, filter, NumNegatives(numNegatives), numEntities);
    }
  }

  // ---------------------------------------------------------------------------
  // The evaluator object.

  class SampledRankBasedEvaluator {
    const base: RankBasedEvaluator
    var negatives: map<Target, IdMatrix>
    var tripleToIndex: map<Triple, nat>

    /** Both tables are present and rectangular, every stored index has a row in each, and `num_entities` is set. */
    predicate Valid()
      reads this, base
    {
      && Head in negatives && Tail in negatives
      && Rectangular(negatives[Head]) && Rectangular(negatives[Tail])
      && RowsCover(tripleToIndex, negatives[Head]) && RowsCover(tripleToIndex, negatives[Tail])
      && base.numEntities.Some?
    }

    constructor(base: RankBasedEvaluator, negatives: map<Target, IdMatrix>, tripleToIndex: map<Triple, nat>)
      ensures this.base == base && this.negatives == negatives && this.tripleToIndex == tripleToIndex
    {
      this.base := base;
      this.negatives := negatives;
      this.tripleToIndex := tripleToIndex;
    }

    /**
     * `__init__`: the rank-based validation of ks; then the negatives, sampled when neither table is
     * given; the row-count check; the triple index; and `num_entities` set to the entity count.
     */
    static method Create(ks: Option<seq<HitsK>>, evalTriples: seq<Triple>, numEntities: nat, filter: seq<Triple>,
                         numNegatives: Option<nat>, headNegatives: Option<IdMatrix>, tailNegatives: Option<IdMatrix>)
      returns (r: Result<SampledRankBasedEvaluator, SampledError>)
      requires headNegatives.Some? ==> Rectangular(headNegatives.value)
      requires tailNegatives.Some? ==> Rectangular(tailNegatives.value)
      ensures var given := ks.GetOr(DEFAULT_KS);
        var failure := NegativesFailure(evalTriples, numEntities, filter, numNegatives, headNegatives, tailNegatives);
        && (!(forall k :: k in given ==> ValidK(k)) ==>
              r.Failure? && r.error.BaseError? && r.error.base.InvalidK? && r.error.base.k in given && !ValidK(r.error.base.k))
        && ((forall k :: k in given ==> ValidK(k)) ==>
              && (r.Failure? <==> failure.Some?)
              && (r.Failure? ==> r.error == failure.value))
        && (r.Success? ==>
              && fresh(r.value) && fresh(r.value.base) && r.value.Valid()
              && r.value.base.ks == given && r.value.base.ranks == map[] && r.value.base.numEntities == Some(numEntities)
              && r.value.tripleToIndex == TripleIndex(evalTriples)
              && (headNegatives.Some? ==> r.value.negatives == map[Head := headNegatives.value, Tail := tailNegatives.value])
              && (headNegatives.None? ==>
                    && r.value.negatives.Keys == {Head, Tail}
                    && forall target: Target ::
                         SampledTable(evalTriples, filter, target, numEntities, NumNegatives(numNegatives), r.value.negatives[target])))
    {
      var b := RankBasedEvaluator.Create(ks);
      if b.Failure? {
        return Failure(BaseError(b.error));
      }
      var negatives: map<Target, IdMatrix>;
      if headNegatives.None? && tailNegatives.None? {
        var k := NumNegatives(numNegatives);
        if k > numEntities {
          return Failure(TooManyNegatives);
        }
        var sampled := SampleNegatives(evalTriples, filter, k, Some(numEntities));
        if sampled.Failure? {
          return Failure(SamplingError(sampled.error));
        }
        negatives := sampled.value;
        assert SampledTable(evalTriples, filter, Head, numEntities, k, negatives[Head]);
        assert SampledTable(evalTriples, filter, Tail, numEntities, k, negatives[Tail]);
      } else if headNegatives.None? || tailNegatives.None? {
        return Failure(OneSideOfNegatives);
      } else {
        negatives := map[Head := headNegatives.value, Tail := tailNegatives.value];
      }
      assert TARGETS == [Head, Tail];
      for si := 0 to |TARGETS|
        invariant forall j :: 0 <= j < si ==> |negatives[TARGETS[j]].rows| == |evalTriples|
      {
        var side := TARGETS[si];
        if |negatives[side].rows| != |evalTriples| {
          if si == 1 {
            assert |negatives[TARGETS[0]].rows| == |evalTriples|;
          }
          return Failure(WrongRowCount(side));
        }
      }
      assert |negatives[TARGETS[0]].rows| == |negatives[TARGETS[1]].rows| == |evalTriples|;
      var e := new SampledRankBasedEvaluator(b.value, negatives, TripleIndex(evalTriples));
      e.base.numEntities := Some(numEntities);
      return Success(e);
    }

    /**
     * `process_scores_`: without true scores the ValueError; otherwise the batch's scores are narrowed
     * as `SampledScores` says, ranked and appended by the rank-based evaluator, and `num_entities` is put
     * back to the width of the full score matrix.
     */
    method ProcessScores(hrtBatch: seq<Triple>, target: Target, scores: ScoreMatrix, trueScores: Option<seq<real>>, ranker: Ranker)
      returns (r: Result<(), SampledError>)
      requires Valid() && WellShaped(scores)
      modifies base
      ensures Valid() && base.ks == old(base.ks)
      ensures trueScores.None? ==>
        r == Failure(NoTrueScores) && base.ranks == old(base.ranks) && base.numEntities == old(base.numEntities)
      ensures trueScores.Some? ==>
        var s := SampledScores(tripleToIndex, negatives[target], hrtBatch, scores, trueScores.value);
        && (s.Failure? ==> r == Failure(s.error) && base.ranks == old(base.ranks) && base.numEntities == old(base.numEntities))
        && (s.Success? ==>
              && r == Success(())
              && base.ranks == Appended(old(base.ranks), target, ranker(trueScores.value, s.value))
              && base.numEntities == Some(scores.width))
    {
      if trueScores.None? {
        return Failure(NoTrueScores);
      }
      var numEntities := scores.width;
      var narrowed := SampledScores(tripleToIndex, negatives[target], hrtBatch, scores, trueScores.value);
      if narrowed.Failure? {
        return Failure(narrowed.error);
      }
      var _ := base.ProcessScores(target, narrowed.value, trueScores, ranker);
      base.numEntities := Some(numEntities);
      return Success(());
    }

    /** `finalize`, inherited: never the "no num_entities" error, since the constructor sets it. */
    method Finalize() returns (r: Result<MetricResults, EvalError>)
      requires Valid()
      modifies base
      ensures r == FinalizeSpec(old(base.ks), old(base.numEntities), old(base.ranks))
      ensures r != Failure(NoNumEntities)
      ensures Valid() && base.ranks == if r.Success? then map[] else old(base.ranks)
    {
      r := base.Finalize();
      if r.Failure? {
        FinalizeError(old(base.ks), old(base.numEntities).value, old(base.ranks));
      }
    }
  }

  // ---------------------------------------------------------------------------
  // Sampled tables fit the score matrices.

  /**
   * When every evaluation triple is among the filter triples (as `prepare_filter_triples` arranges),
   * every row of a sampled table is a draw, so every id in it is a column of a score matrix over the
   * same entities, and a true negative of its triple.
   */
  lemma SampledIdsAreColumns(eval: seq<Triple>, filter: seq<Triple>, target: Target, n: nat, k: nat, table: IdMatrix, i: nat, j: nat)
    requires SampledTable(eval, filter, target, n, k, table)
    requires forall l :: 0 <= l < |eval| ==> eval[l] in filter
    requires i < |eval| && j < k
    ensures InColumnRange(table.rows[i][j], n) && ColumnOf(table.rows[i][j], n) == table.rows[i][j]
    ensures WithAnswer(eval[i], target, table.rows[i][j]) !in filter
  {
    assert eval[i] in filter;
    var l :| 0 <= l < |filter| && filter[l] == eval[i];
    assert HasGroup(filter, target, KeyOf(eval[i], target));
    DrawnAreTrueNegatives(eval, filter, target, n, k, table, i, j);
  }
}
