/**
 * RankBasedMetricResults (rank_based_evaluator.py, lines 192-268): the result table an evaluator's
 * `finalize` returns, its lookup by metric key (`_get_metric`, `get_metric`) and its flattening
 * (`_iter_rows`, `to_flat_dict`).
 *
 * Python nests the table as metric -> side -> rank type -> value, with the hits@k values one level
 * deeper under "hits_at_k". Here both levels are flattened to maps keyed by the whole path: a
 * missing key at any level is the same KeyError, and the rows are the same.
 */
module Results {
  import opened Wrappers
  import opened Vocabulary
  import opened RankStats
  import opened MetricKeys

  /** A hits@k cut-off: an absolute rank (a Python int) or a fraction of the candidates (a float). */
  datatype HitsK = IntK(n: int) | FracK(f: real)

  /** The data of a RankBasedMetricResults. */
  datatype MetricResults = MetricResults(
    asr: map<(Metric, Side, RankType), Value>,
    hits: map<(Side, RankType, HitsK), real>)

  /** What `_get_metric` raises: a KeyError on a missing path, the AssertionError on a hits name without k. */
  datatype ResultsError = MissingEntry | HitsWithoutK

  /** `_get_metric`: a name starting with "hits" reads the hits@k table, every other name its own table. */
  function GetMetricByKey(res: MetricResults, key: MetricKey): Result<Value, ResultsError> {
    if !("hits" <= key.name) then
      match MetricOfName(key.name)
      case None => Failure(MissingEntry)
      case Some(m) =>
        if (m, key.side, key.rankType) in res.asr then Success(res.asr[(m, key.side, key.rankType)])
        else Failure(MissingEntry)
    else if key.k.None? then Failure(HitsWithoutK)
    else if (key.side, key.rankType, IntK(key.k.value)) in res.hits then
      Success(Num(res.hits[(key.side, key.rankType, IntK(key.k.value))]))
    else Failure(MissingEntry)
  }

  datatype GetMetricError = LookupFailed(lookup: LookupError) | ReadFailed(read: ResultsError)

  /** `get_metric(name)`: `_get_metric(MetricKey.lookup(name))`. */
  function GetMetric(res: MetricResults, s: string): Result<Value, GetMetricError> {
    match Lookup(s)
    case Failure(e) => Failure(LookupFailed(e))
    case Success(key) =>
      match GetMetricByKey(res, key)
      case Failure(e) => Failure(ReadFailed(e))
      case Success(v) => Success(v)
  }

  // ---------------------------------------------------------------------------
  // Rows and the flat dictionary.

  /** The metric column of a row: a metric's own name, or `hits_at_{k}`. */
  datatype Column = MetricColumn(metric: Metric) | HitsColumn(k: HitsK)

  /** One row `(side, rank_type, metric_name, value)` of `_iter_rows`. */
  datatype Row = Row(side: Side, rankType: RankType, column: Column, value: Value)

  type FlatKey = (Side, RankType, Column)

  function FlatKeyOf(row: Row): FlatKey {
    (row.side, row.rankType, row.column)
  }

  /** `_iter_rows`, as the set of rows it yields (the iteration order of the dictionaries is not modelled). */
  function Rows(res: MetricResults): set<Row> {
    (set key | key in res.asr :: Row(key.1, key.2, MetricColumn(key.0), res.asr[key]))
    + (set key | key in res.hits :: Row(key.0, key.1, HitsColumn(key.2), Num(res.hits[key])))
  }

  /** Two rows of the structural table never share a structural flat key. */
  lemma RowsHaveDistinctKeys(res: MetricResults, a: Row, b: Row)
    requires a in Rows(res) && b in Rows(res) && FlatKeyOf(a) == FlatKeyOf(b)
    ensures a == b
  {
  }

  /** `to_flat_dict`: one entry `side.rank_type.metric_name -> value` per row. */
  function FlatDict(res: MetricResults): (d: map<FlatKey, Value>)
    ensures forall row :: row in Rows(res) ==> FlatKeyOf(row) in d && d[FlatKeyOf(row)] == row.value
    ensures forall key :: key in d ==> Row(key.0, key.1, key.2, d[key]) in Rows(res)
  {
    forall a, b | a in Rows(res) && b in Rows(res) && FlatKeyOf(a) == FlatKeyOf(b) {
      RowsHaveDistinctKeys(res, a, b);
    }
    map row | row in Rows(res) :: FlatKeyOf(row) := row.value
  }

  /** Every metric entry of the table becomes an entry of the flat dictionary, and nothing else does. */
  lemma FlatDictOfTable(res: MetricResults)
    ensures forall key :: key in res.asr ==>
      var fk := (key.1, key.2, MetricColumn(key.0));
      fk in FlatDict(res) && FlatDict(res)[fk] == res.asr[key]
    ensures forall key :: key in res.hits ==>
      var fk := (key.0, key.1, HitsColumn(key.2));
      fk in FlatDict(res) && FlatDict(res)[fk] == Num(res.hits[key])
    ensures forall m, side, t :: (side, t, MetricColumn(m)) in FlatDict(res) ==> (m, side, t) in res.asr
    ensures forall side, t, k :: (side, t, HitsColumn(k)) in FlatDict(res) ==> (side, t, k) in res.hits
  {
    var d := FlatDict(res);
    forall key | key in res.asr
      ensures (key.1, key.2, MetricColumn(key.0)) in d && d[(key.1, key.2, MetricColumn(key.0))] == res.asr[key]
    {
      assert Row(key.1, key.2, MetricColumn(key.0), res.asr[key]) in Rows(res);
    }
    forall key | key in res.hits
      ensures (key.0, key.1, HitsColumn(key.2)) in d && d[(key.0, key.1, HitsColumn(key.2))] == Num(res.hits[key])
    {
      assert Row(key.0, key.1, HitsColumn(key.2), Num(res.hits[key])) in Rows(res);
    }
    forall m, side, t | (side, t, MetricColumn(m)) in d ensures (m, side, t) in res.asr {
      assert Row(side, t, MetricColumn(m), d[(side, t, MetricColumn(m))]) in Rows(res);
    }
    forall side, t, k | (side, t, HitsColumn(k)) in d ensures (side, t, k) in res.hits {
      assert Row(side, t, HitsColumn(k), d[(side, t, HitsColumn(k))]) in Rows(res);
    }
  }

  // ---------------------------------------------------------------------------
  // Reading a key back.

  /** The flat-dictionary column a canonical key reads, or None when `_get_metric` cannot read it. */
  function ColumnOf(key: MetricKey): Option<Column> {
    if key.name == HITS_AT_K && key.k.Some? then Some(HitsColumn(IntK(key.k.value)))
    else if "hits" <= key.name then None
    else
      match MetricOfName(key.name)
      case None => None
      case Some(m) => Some(MetricColumn(m))
  }

  lemma HitsAtKStartsWithHits()
    ensures "hits" <= HITS_AT_K
  {
  }

  /**
   * For every key lookup can return, `_get_metric` succeeds exactly when the flat dictionary holds the
   * key's column for its side and rank type, and then returns that entry.
   */
  lemma GetMetricByKeyAgreesWithFlatDict(res: MetricResults, key: MetricKey)
    requires CanonicalKey(key)
    ensures var r := GetMetricByKey(res, key);
      var c := ColumnOf(key);
      && (r.Success? <==> c.Some? && (key.side, key.rankType, c.value) in FlatDict(res))
      && (r.Success? ==> r.value == FlatDict(res)[(key.side, key.rankType, c.value)])
  {
    FlatDictOfTable(res);
    HitsAtKStartsWithHits();
  }

  /** A name starting with "hits" other than hits@k carries no k after lookup, and reading it fails the assertion. */
  lemma GetMetricOfOtherHitsName(res: MetricResults, key: MetricKey)
    requires CanonicalKey(key) && "hits" <= key.name && key.name != HITS_AT_K
    ensures GetMetricByKey(res, key) == Failure(HitsWithoutK)
  {
  }

  /** `get_metric("hits")` raises the AssertionError: lookup keeps the name and gives no k. */
  lemma GetMetricOfHits(res: MetricResults)
    ensures GetMetric(res, "hits") == Failure(ReadFailed(HitsWithoutK))
  {
    LookupOfHitsPrefix("hits");
  }

  /** Whatever string names a metric, `get_metric` returns what the flat dictionary holds for the key lookup resolves it to. */
  lemma GetMetricAgreesWithFlatDict(res: MetricResults, s: string)
    requires Lookup(s).Success?
    ensures var key := Lookup(s).value;
      var c := ColumnOf(key);
      && (GetMetric(res, s).Success? <==> c.Some? && (key.side, key.rankType, c.value) in FlatDict(res))
      && (GetMetric(res, s).Success? ==> GetMetric(res, s).value == FlatDict(res)[(key.side, key.rankType, c.value)])
  {
    LookupIsCanonical(s);
    GetMetricByKeyAgreesWithFlatDict(res, Lookup(s).value);
  }
}
