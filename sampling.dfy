/**
 * `sample_negatives` (rank_based_evaluator.py, lines 400-452): for each evaluation triple and each
 * predicted side, a row of entities drawn without replacement from the candidates that no known triple
 * names as an answer for the triple's grouping key.
 *
 * The pandas merge and groupby become comprehensions over the filter triples, and `random.sample` a
 * nondeterministic choice of distinct positions of the population. The filter triples are what
 * `prepare_filter_triples` returns; that function is not part of this model.
 */
module Sampling {
  import opened Wrappers
  import opened Vocabulary

  /** A two-dimensional tensor of entity ids with `width` columns. */
  datatype IdMatrix = IdMatrix(width: nat, rows: seq<seq<int>>)

  predicate Rectangular(m: IdMatrix) {
    forall i :: 0 <= i < |m.rows| ==> |m.rows[i]| == m.width
  }

  /** What `sample_negatives` raises. */
  datatype SampleError =
    | EmptyFilterTriples       // RuntimeError: the maximum of an empty tensor
    | EmptyPool(side: Target)  // ZeroDivisionError: math.ceil(num_samples / 0)

  // ---------------------------------------------------------------------------
  // The number of candidates.

  /** `additional_filter_triples[:, [0, 2]].max()`: the largest head or tail id. */
  function MaxEntity(triples: seq<Triple>): (m: int)
    requires |triples| > 0
    ensures forall i :: 0 <= i < |triples| ==> triples[i].h <= m && triples[i].t <= m
    ensures exists i :: 0 <= i < |triples| && (triples[i].h == m || triples[i].t == m)
  {
    var n := |triples| - 1;
    var last := triples[n];
    var here := if last.h >= last.t then last.h else last.t;
    if n == 0 then here
    else
      var rest := MaxEntity(triples[..n]);
      if rest >= here then rest else here
  }

  /** `num_entities or (max + 1)`: a missing or zero count falls back to one more than the largest id. */
  function CandidateCount(filter: seq<Triple>, numEntities: Option<int>): Result<int, SampleError> {
    if numEntities.Some? && numEntities.value != 0 then Success(numEntities.value)
    else if filter == [] then Failure(EmptyFilterTriples)
    else Success(MaxEntity(filter) + 1)
  }

  /** The fallback count takes in every head and tail of the filter triples, and no more ids than needed. */
  lemma FallbackCoversFilter(filter: seq<Triple>, numEntities: Option<int>)
    requires numEntities.None? || numEntities == Some(0)
    ensures CandidateCount(filter, numEntities).Failure? <==> filter == []
    ensures CandidateCount(filter, numEntities).Success? ==>
      var n := CandidateCount(filter, numEntities).value;
      && (forall i :: 0 <= i < |filter| ==> filter[i].h < n && filter[i].t < n)
      && (exists i :: 0 <= i < |filter| && (filter[i].h == n - 1 || filter[i].t == n - 1))
  {
  }

  // ---------------------------------------------------------------------------
  // Groups and pools.

  /** The answers the filter triples give for a key: `group[f"{side}_all"].unique()`. */
  function KnownAnswers(filter: seq<Triple>, target: Target, key: Key): set<int> {
    set i | 0 <= i < |filter| && KeyOf(filter[i], target) == key :: AnswerOf(filter[i], target)
  }

  /** Whether the merge gives the key a group: some filter triple shares it. */
  predicate HasGroup(filter: seq<Triple>, target: Target, key: Key) {
    exists i :: 0 <= i < |filter| && KeyOf(filter[i], target) == key
  }

  /** `list(all_ids.difference(known))`, listed in ascending order. */
  function Pool(n: int, known: set<int>): (p: seq<int>)
    ensures forall e :: e in p <==> 0 <= e < n && e !in known
    ensures forall i, j :: 0 <= i < j < |p| ==> p[i] < p[j]
    decreases n
  {
    if n <= 0 then []
    else
      var rest := Pool(n - 1, known);
      assert forall i :: 0 <= i < |rest| ==> rest[i] in rest && rest[i] < n - 1;
      rest + (if n - 1 in known then [] else [n - 1])
  }

  /** `math.ceil(a / b)` for a positive b. */
  function CeilDiv(a: nat, b: nat): (c: nat)
    requires b > 0
    ensures c * b >= a && (c == 0 || (c - 1) * b < a)
  {
    (a + b - 1) / b
  }

  /** `c * s`: the list repeated c times. */
  function Repeat(s: seq<int>, c: nat): (r: seq<int>)
    ensures |r| == c * |s|
  {
    if c == 0 then [] else Repeat(s, c - 1) + s
  }

  /** Each element of the list occurs c times as often in its repetition, and nothing else occurs. */
  lemma {:induction false} RepeatCounts(s: seq<int>, c: nat, x: int)
    ensures multiset(Repeat(s, c))[x] == c * multiset(s)[x]
  {
    if c > 0 {
      RepeatCounts(s, c - 1, x);
      var m := multiset(s)[x];
      assert multiset(Repeat(s, c)) == multiset(Repeat(s, c - 1)) + multiset(s);
      assert (c - 1) * m + m == c * m;
    }
  }

  lemma RepeatMembers(s: seq<int>, c: nat, x: int)
    requires c > 0
    ensures x in Repeat(s, c) <==> x in s
  {
    RepeatCounts(s, c, x);
    assert x in Repeat(s, c) <==> multiset(Repeat(s, c))[x] > 0;
    assert x in s <==> multiset(s)[x] > 0;
  }

  /**
   * The population one key's rows are drawn from: its pool, or the pool repeated ceil(k / |pool|) times
   * when the pool has fewer than k entities; an empty pool when samples are asked for divides by zero.
   */
  function Population(filter: seq<Triple>, target: Target, key: Key, n: int, k: nat): Result<seq<int>, SampleError> {
    var pool := Pool(n, KnownAnswers(filter, target, key));
    if |pool| < k then
      if |pool| == 0 then Failure(EmptyPool(target))
      else Success(Repeat(pool, CeilDiv(k, |pool|)))
    else Success(pool)
  }

  /** A population exists unless the pool is empty while samples are asked for, and it has at least k entities. */
  lemma PopulationSize(filter: seq<Triple>, target: Target, key: Key, n: int, k: nat)
    ensures var pool := Pool(n, KnownAnswers(filter, target, key));
      var p := Population(filter, target, key, n, k);
      && (p.Failure? <==> |pool| == 0 && k > 0)
      && (p.Success? ==> |p.value| >= k && (|pool| >= k ==> p.value == pool))
  {
    var pool := Pool(n, KnownAnswers(filter, target, key));
    if 0 < |pool| < k {
      var c := CeilDiv(k, |pool|);
      assert |Repeat(pool, c)| == c * |pool| >= k;
    }
  }

  /** A population holds exactly the pool's entities; a repeated pool holds each of them ceil(k / |pool|) times. */
  lemma PopulationMembers(filter: seq<Triple>, target: Target, key: Key, n: int, k: nat)
    ensures var pool := Pool(n, KnownAnswers(filter, target, key));
      var p := Population(filter, target, key, n, k);
      && (p.Success? ==> forall x :: x in p.value <==> x in pool)
      && (p.Success? && |pool| < k ==> forall x :: x in pool ==> multiset(p.value)[x] == CeilDiv(k, |pool|))
  {
    var pool := Pool(n, KnownAnswers(filter, target, key));
    if 0 < |pool| < k {
      var c := CeilDiv(k, |pool|);
      var population := Repeat(pool, c);
      assert Population(filter, target, key, n, k) == Success(population);
      forall x ensures x in population <==> x in pool {
        RepeatMembers(pool, c, x);
      }
      forall x | x in pool ensures multiset(population)[x] == c {
        RepeatOfIncreasingCount(pool, c, x);
      }
    }
  }

  /** Each element of a strictly increasing list occurs c times in its c-fold repetition. */
  lemma RepeatOfIncreasingCount(s: seq<int>, c: nat, x: int)
    requires forall i, j :: 0 <= i < j < |s| ==> s[i] < s[j]
    requires x in s
    ensures multiset(Repeat(s, c))[x] == c
  {
    RepeatCounts(s, c, x);
    StrictlyIncreasingCount(s, x);
  }

  /** In a strictly increasing list every element occurs once. */
  lemma {:induction false} StrictlyIncreasingCount(s: seq<int>, x: int)
    requires forall i, j :: 0 <= i < j < |s| ==> s[i] < s[j]
    requires x in s
    ensures multiset(s)[x] == 1
  {
    var n := |s| - 1;
    assert s == s[..n] + [s[n]];
    if s[n] == x {
      assert x !in s[..n];
    } else {
      StrictlyIncreasingCount(s[..n], x);
    }
  }

  // ---------------------------------------------------------------------------
  // The draw.

  /** k positions of a population of the given size, no two the same: what `random.sample` chooses. */
  predicate DistinctPositions(pos: seq<int>, size: nat) {
    && (forall j :: 0 <= j < |pos| ==> 0 <= pos[j] < size)
    && (forall j, l :: 0 <= j < l < |pos| ==> pos[j] != pos[l])
  }

  function Pick(population: seq<int>, pos: seq<int>): (row: seq<int>)
    requires DistinctPositions(pos, |population|)
    ensures |row| == |pos| && forall j :: 0 <= j < |pos| ==> row[j] == population[pos[j]]
  {
    seq(|pos|, j requires 0 <= j < |pos| => population[pos[j]])
  }

  /** `random.sample(population, k)`: some choice of k distinct positions, read in the order chosen. */
  ghost predicate IsDraw(row: seq<int>, population: seq<int>, k: nat) {
    exists pos :: |pos| == k && DistinctPositions(pos, |population|) && row == Pick(population, pos)
  }

  /** A side cannot be sampled: a triple's group has an empty pool while samples are asked for. */
  predicate SideFails(eval: seq<Triple>, filter: seq<Triple>, target: Target, n: int, k: nat) {
    exists i :: 0 <= i < |eval| && HasGroup(filter, target, KeyOf(eval[i], target))
      && Population(filter, target, KeyOf(eval[i], target), n, k).Failure?
  }

  /**
   * The table of one side: a row of k ids per evaluation triple; the row of a triple whose key has a
   * group is a draw from that key's population; any other row is left as `torch.empty` made it.
   */
  ghost predicate SampledTable(eval: seq<Triple>, filter: seq<Triple>, target: Target, n: int, k: nat, table: IdMatrix) {
    && table.width == k && |table.rows| == |eval| && Rectangular(table)
    && RowsDrawn(eval, filter, target, n, k, table.rows, |eval|)
  }

  /** The first `upto` rows are drawn as `RowDrawn` says. */
  ghost predicate RowsDrawn(eval: seq<Triple>, filter: seq<Triple>, target: Target, n: int, k: nat, rows: seq<seq<int>>, upto: nat)
    requires upto <= |eval| && upto <= |rows|
  {
    forall i :: 0 <= i < upto ==> RowDrawn(filter, target, eval[i], n, k, rows[i])
  }

  /** Drawing row `i` extends the drawn prefix by one. */
  lemma RowsDrawnStep(eval: seq<Triple>, filter: seq<Triple>, target: Target, n: int, k: nat, rows: seq<seq<int>>, i: nat, row: seq<int>)
    requires i < |eval| && |rows| == |eval|
    requires RowsDrawn(eval, filter, target, n, k, rows, i)
    requires RowDrawn(filter, target, eval[i], n, k, row)
    ensures RowsDrawn(eval, filter, target, n, k, rows[i := row], i + 1)
  {
  }

  /** The row of one evaluation triple: a draw from its key's population when the key has a group. */
  ghost predicate RowDrawn(filter: seq<Triple>, target: Target, tr: Triple, n: int, k: nat, row: seq<int>) {
    HasGroup(filter, target, KeyOf(tr, target)) ==>
      var p := Population(filter, target, KeyOf(tr, target), n, k);
      p.Success? && IsDraw(row, p.value, k)
  }

  /** What `sample_negatives` raises, if anything: the count's error, else the first side that fails. */
  function SampleFailure(eval: seq<Triple>, filter: seq<Triple>, k: nat, numEntities: Option<int>): Option<SampleError> {
    match CandidateCount(filter, numEntities)
    case Failure(e) => Some(e)
    case Success(n) =>
      if SideFails(eval, filter, Head, n, k) then Some(EmptyPool(Head))
      else if SideFails(eval, filter, Tail, n, k) then Some(EmptyPool(Tail))
      else None
  }

  /** The rows of one group: its population, tiled when short, and one draw of k distinct positions from it. */
  method DrawRow(filter: seq<Triple>, target: Target, key: Key, n: int, k: nat) returns (r: Result<seq<int>, SampleError>)
    ensures var p := Population(filter, target, key, n, k);
      && (r.Failure? <==> p.Failure?)
      && (r.Failure? ==> r.error == EmptyPool(target))
      && (r.Success? ==> |r.value| == k && IsDraw(r.value, p.value, k))
  {
    var pool := Pool(n, KnownAnswers(filter, target, key));
    if |pool| < k {
      if |pool| == 0 {
        return Failure(EmptyPool(target));
      }
      pool := Repeat(pool, CeilDiv(k, |pool|));
    }
    assert Population(filter, target, key, n, k) == Success(pool);
    assert DistinctPositions(seq(k, j => j), |pool|);
    var pos: seq<int> :| |pos| == k && DistinctPositions(pos, |pool|);
    r := Success(Pick(pool, pos));
    assert IsDraw(r.value, pool, k);
  }

  /** The loop body of `sample_negatives` for one side. */
  method SampleSide(eval: seq<Triple>, filter: seq<Triple>, target: Target, n: int, k: nat) returns (r: Result<IdMatrix, SampleError>)
    ensures r.Failure? <==> SideFails(eval, filter, target, n, k)
    ensures r.Failure? ==> r.error == EmptyPool(target)
    ensures r.Success? ==> SampledTable(eval, filter, target, n, k, r.value)
  {
    assert |seq(k, j => 0)| == k;
    var unset: seq<int> :| |unset| == k;
    var table := new seq<int>[|eval|](_ => unset);
    for i := 0 to |eval|
      invariant forall j :: 0 <= j < |eval| ==> |table[j]| == k
      invariant RowsDrawn(eval, filter, target, n, k, table[..], i)
    {
      var key := KeyOf(eval[i], target);
      if HasGroup(filter, target, key) {
        var row := DrawRow(filter, target, key, n, k);
        if row.Failure? {
          return Failure(row.error);
        }
        RowsDrawnStep(eval, filter, target, n, k, table[..], i, row.value);
        table[i] := row.value;
      } else {
        RowsDrawnStep(eval, filter, target, n, k, table[..], i, table[i]);
        assert table[..][i := table[i]] == table[..];
      }
    }
    r := Success(IdMatrix(k, table[..]));
  }

  /**
   * `sample_negatives`: a table per side as `SampledTable` describes, or the error of
   * `SampleFailure`.
   */
  method SampleNegatives(eval: seq<Triple>, filter: seq<Triple>, numSamples: nat, numEntities: Option<int>)
    returns (r: Result<map<Target, IdMatrix>, SampleError>)
    ensures r.Failure? <==> SampleFailure(eval, filter, numSamples, numEntities).Some?
    ensures r.Failure? ==> r.error == SampleFailure(eval, filter, numSamples, numEntities).value
    ensures r.Success? ==>
      var n := CandidateCount(filter, numEntities).value;
      && r.value.Keys == {Head, Tail}
      && forall target: Target :: SampledTable(eval, filter, target, n, numSamples, r.value[target])
  {
    var count := CandidateCount(filter, numEntities);
    if count.Failure? {
      return Failure(count.error);
    }
    var n := count.value;
    assert TARGETS == [Head, Tail];
    var negatives: map<Target, IdMatrix> := map[];
    for si := 0 to |TARGETS|
      invariant negatives.Keys == set j | 0 <= j < si :: TARGETS[j]
      invariant forall j :: 0 <= j < si ==>
        !SideFails(eval, filter, TARGETS[j], n, numSamples)
        && SampledTable(eval, filter, TARGETS[j], n, numSamples, negatives[TARGETS[j]])
    {
      var side := TARGETS[si];
      var table := SampleSide(eval, filter, side, n, numSamples);
      if table.Failure? {
        if si == 1 {
          assert !SideFails(eval, filter, TARGETS[0], n, numSamples);
        }
        return Failure(table.error);
      }
      negatives := negatives[side := table.value];
    }
    assert TARGETS[0] == Head && TARGETS[1] == Tail;
    return Success(negatives);
  }

  // ---------------------------------------------------------------------------
  // Properties of the draws.

  /** The triple with the entity `e` in the target position. */
  function WithAnswer(tr: Triple, target: Target, e: int): (c: Triple)
    ensures KeyOf(c, target) == KeyOf(tr, target) && AnswerOf(c, target) == e
  {
    if target == Head then Triple(e, tr.r, tr.t) else Triple(tr.h, tr.r, e)
  }

  /** A drawn entity is a candidate for the key's pool. */
  lemma DrawnFromPool(population: seq<int>, pool: seq<int>, k: nat, row: seq<int>, j: nat)
    requires IsDraw(row, population, k) && j < k
    requires forall x :: x in population <==> x in pool
    ensures j < |row| && row[j] in pool
  {
    var pos :| |pos| == k && DistinctPositions(pos, |population|) && row == Pick(population, pos);
    assert row[j] == population[pos[j]];
  }

  /**
   * Every entity drawn for a triple is an entity id below the candidate count that no filter triple
   * gives as an answer for the triple's key: replacing the triple's target with it gives a triple that
   * is not among the filter triples.
   */
  lemma DrawnAreTrueNegatives(eval: seq<Triple>, filter: seq<Triple>, target: Target, n: int, k: nat, table: IdMatrix, i: nat, j: nat)
    requires SampledTable(eval, filter, target, n, k, table)
    requires i < |eval| && HasGroup(filter, target, KeyOf(eval[i], target)) && j < k
    ensures var e := table.rows[i][j];
      && 0 <= e < n
      && e !in KnownAnswers(filter, target, KeyOf(eval[i], target))
      && WithAnswer(eval[i], target, e) !in filter
  {
    var key := KeyOf(eval[i], target);
    var pool := Pool(n, KnownAnswers(filter, target, key));
    PopulationMembers(filter, target, key, n, k);
    DrawnFromPool(Population(filter, target, key, n, k).value, pool, k, table.rows[i], j);
  }

  /** With at least k candidates no entity is drawn twice for the same triple. */
  lemma DrawsDistinct(eval: seq<Triple>, filter: seq<Triple>, target: Target, n: int, k: nat, table: IdMatrix, i: nat)
    requires SampledTable(eval, filter, target, n, k, table)
    requires i < |eval| && HasGroup(filter, target, KeyOf(eval[i], target))
    requires |Pool(n, KnownAnswers(filter, target, KeyOf(eval[i], target)))| >= k
    ensures forall j, l :: 0 <= j < l < k ==> table.rows[i][j] != table.rows[i][l]
  {
    var key := KeyOf(eval[i], target);
    var pool := Pool(n, KnownAnswers(filter, target, key));
    assert Population(filter, target, key, n, k) == Success(pool);
    var pos :| |pos| == k && DistinctPositions(pos, |pool|) && table.rows[i] == Pick(pool, pos);
    forall j, l | 0 <= j < l < k ensures table.rows[i][j] != table.rows[i][l] {
      if pos[j] < pos[l] {
        assert pool[pos[j]] < pool[pos[l]];
      } else {
        assert pool[pos[l]] < pool[pos[j]];
      }
    }
  }

  /** When the candidate ids are given, only an empty pool can make the sampling raise, and only when samples are asked for. */
  lemma SampleFailsOnlyForEmptyPools(eval: seq<Triple>, filter: seq<Triple>, k: nat, n: int)
    requires n != 0
    ensures SampleFailure(eval, filter, k, Some(n)).Some? ==>
      && k > 0
      && exists target: Target, i :: 0 <= i < |eval| && HasGroup(filter, target, KeyOf(eval[i], target))
           && |Pool(n, KnownAnswers(filter, target, KeyOf(eval[i], target)))| == 0
  {
    if SampleFailure(eval, filter, k, Some(n)).Some? {
      var target: Target := if SideFails(eval, filter, Head, n, k) then Head else Tail;
      var i :| 0 <= i < |eval| && HasGroup(filter, target, KeyOf(eval[i], target))
        && Population(filter, target, KeyOf(eval[i], target), n, k).Failure?;
      PopulationSize(filter, target, KeyOf(eval[i], target), n, k);
    }
  }
}
