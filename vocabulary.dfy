/**
 * The closed vocabularies the evaluation core is written against: sides, rank types,
 * their synonyms and the expected-rank table (the constants of `pykeen.typing`), plus
 * the triples whose positions define sides and grouping keys.
 */
module Vocabulary {
  import opened Wrappers

  /** A side of a triple that is predicted, or `Both` for the pooled view. */
  datatype Side = Head | Tail | Both

  /** A side that is actually predicted and stored: head or tail, never `Both`. */
  type Target = s: Side | s != Both witness Head

  /** The rank semantics; `ExpectedRealistic` is the chance baseline buffer, not a base type. */
  datatype RankType = Optimistic | Realistic | Pessimistic | ExpectedRealistic

  /** SIDES, in their declared order. */
  const SIDES: seq<Side> := [Head, Tail, Both]

  /** The two stored sides, in the order `_get_ranks` concatenates them. */
  const TARGETS: seq<Target> := [Head, Tail]

  /** RANK_TYPES, in their declared order (the expected-realistic type is not among them). */
  const RANK_TYPES: seq<RankType> := [Optimistic, Realistic, Pessimistic]

  /** Every rank type the rank producer may report, including the expected one. */
  const EXTENDED_RANK_TYPES: seq<RankType> := [Optimistic, Realistic, Pessimistic, ExpectedRealistic]

  predicate IsBaseRankType(t: RankType) {
    t != ExpectedRealistic
  }

  function SideName(s: Side): string {
    match s
    case Head => "head"
    case Tail => "tail"
    case Both => "both"
  }

  function RankTypeName(t: RankType): string {
    match t
    case Optimistic => "optimistic"
    case Realistic => "realistic"
    case Pessimistic => "pessimistic"
    case ExpectedRealistic => "expected_realistic"
  }

  /** The side whose name is `s`, if `s` is one of SIDES. */
  function SideOfName(s: string): (r: Option<Side>)
    ensures r.Some? ==> SideName(r.value) == s
    ensures forall side: Side :: SideName(side) == s ==> r == Some(side)
  {
    if s == "head" then Some(Head)
    else if s == "tail" then Some(Tail)
    else if s == "both" then Some(Both)
    else None
  }

  /** The base rank type whose name is `s`, if `s` is one of RANK_TYPES. */
  function RankTypeOfName(s: string): (r: Option<RankType>)
    ensures r.Some? ==> IsBaseRankType(r.value) && RankTypeName(r.value) == s
    ensures forall t: RankType :: IsBaseRankType(t) && RankTypeName(t) == s ==> r == Some(t)
  {
    if s == "optimistic" then Some(Optimistic)
    else if s == "realistic" then Some(Realistic)
    else if s == "pessimistic" then Some(Pessimistic)
    else None
  }

  /** RANK_TYPE_SYNONYMS: alternative spellings of the base rank types. */
  const RANK_TYPE_SYNONYMS: map<string, string> :=
    map["best" := "optimistic", "worst" := "pessimistic", "avg" := "realistic", "average" := "realistic"]

  /**
   * EXPECTED_RANKS.get(t): the rank type whose buffer holds the chance baseline of `t`.
   * Only the realistic type has one.
   */
  function ExpectedRankOf(t: RankType): Option<RankType> {
    if t == Realistic then Some(ExpectedRealistic) else None
  }

  /** A triple of entity/relation ids (head, relation, tail). */
  datatype Triple = Triple(h: int, r: int, t: int)

  /** The grouping key of a triple for a target: the two columns other than the target, in column order. */
  datatype Key = Key(first: int, second: int)

  function KeyOf(tr: Triple, target: Target): Key {
    if target == Head then Key(tr.r, tr.t) else Key(tr.h, tr.r)
  }

  /** The entity in the target position of a triple. */
  function AnswerOf(tr: Triple, target: Target): int {
    if target == Head then tr.h else tr.t
  }
}
