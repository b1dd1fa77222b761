/**
 * The metric-key grammar of `src/pykeen/evaluation/metrics.py`: the prefix match of
 * METRIC_PATTERN, `MetricKey.lookup`, `MetricKey.__str__` and `MetricKey.normalize`.
 */
module MetricKeys {
  import opened Wrappers
  import opened Vocabulary
  import opened Text

  const HITS_AT_K := "hits_at_k"
  const ADJUSTED_ARITHMETIC_MEAN_RANK := "adjusted_arithmetic_mean_rank"
  const ADJUSTED_ARITHMETIC_MEAN_RANK_INDEX := "adjusted_arithmetic_mean_rank_index"

  /** Metrics that are only defined for the realistic rank type. */
  const TYPES_REALISTIC_ONLY: set<string> := {ADJUSTED_ARITHMETIC_MEAN_RANK, ADJUSTED_ARITHMETIC_MEAN_RANK_INDEX}

  /** Alternative names of metrics, mapped to their canonical names. */
  const METRIC_SYNONYMS: map<string, string> := map[
    "adjusted_mean_rank" := ADJUSTED_ARITHMETIC_MEAN_RANK,
    "adjusted_mean_rank_index" := ADJUSTED_ARITHMETIC_MEAN_RANK_INDEX,
    "amr" := ADJUSTED_ARITHMETIC_MEAN_RANK,
    "aamr" := ADJUSTED_ARITHMETIC_MEAN_RANK,
    "amri" := ADJUSTED_ARITHMETIC_MEAN_RANK_INDEX,
    "aamri" := ADJUSTED_ARITHMETIC_MEAN_RANK_INDEX,
    "igmr" := "inverse_geometric_mean_rank",
    "iamr" := "inverse_arithmetic_mean_rank",
    "mr" := "arithmetic_mean_rank",
    "mean_rank" := "arithmetic_mean_rank",
    "mrr" := "inverse_harmonic_mean_rank",
    "mean_reciprocal_rank" := "inverse_harmonic_mean_rank"
  ]

  /** The alternatives of the side group, in pattern order. */
  const SIDE_WORDS: seq<string> := ["head", "tail", "both"]

  /** The alternatives of the rank-type group: RANK_TYPES, then the synonym keys. */
  const TYPE_WORDS: seq<string> := ["optimistic", "realistic", "pessimistic", "best", "worst", "avg", "average"]

  /** A parsed metric key; `k` is only meaningful for hits@k. */
  datatype MetricKey = MetricKey(name: string, side: Side, rankType: RankType, k: Option<int>)

  /** The groups captured by a successful prefix match of METRIC_PATTERN. */
  datatype PatternMatch = PatternMatch(name: string, side: Option<string>, rankType: Option<string>, k: Option<string>)

  /** Everything `lookup` can raise. */
  datatype LookupError =
    | InvalidMetricName(spec: string)    // METRIC_PATTERN does not match
    | MissingName                        // empty name group
    | InvalidK(text: string)             // int(k) fails
    | NegativeK(k: int)                  // k < 0
    | KIsNotAnInteger(text: string)      // the `assert k is None or isinstance(k, int)`
    | InvalidSide(text: string)
    | InvalidRankType(text: string)
    | RealisticOnly(name: string, rankType: RankType)

  /** The locals `k` of `lookup` passes through: absent, the captured digits, or an int. */
  datatype KValue = NoK | KText(text: string) | KInt(n: int)

  /** The first alternative `w` of `words` such that `rest` starts with "." + w. */
  function FirstAlternative(rest: string, words: seq<string>): (r: Option<string>)
    ensures r.Some? ==> r.value in words && [ '.' ] + r.value <= rest
    ensures r.None? ==> forall w :: w in words ==> !([ '.' ] + w <= rest)
  {
    if words == [] then None
    else if [ '.' ] + words[0] <= rest then Some(words[0])
    else FirstAlternative(rest, words[1..])
  }

  /** What an optional group `(\.(alternatives))?` consumes: the captured word and the remaining text. */
  function OptionalGroup(rest: string, words: seq<string>): (string, Option<string>) {
    match FirstAlternative(rest, words)
    case Some(w) => (rest[|w| + 1..], Some(w))
    case None => (rest, None)
  }

  /**
   * `METRIC_PATTERN.match(s)`: a prefix match of
   * `(?P<name>[\w@]+)(\.(?P<side>...))?(\.(?P<type>...))?(\.(?P<k>\d+))?`.
   * Every group after the name is optional, so the greedy choice at each step is the match;
   * text after the last group that matched is ignored.
   */
  function MatchPattern(s: string): (r: Option<PatternMatch>)
    ensures r.None? <==> s == [] || !IsNameChar(s[0])
    ensures r.Some? ==> |r.value.name| > 0 && AllNameChars(r.value.name)
    ensures r.Some? && r.value.side.Some? ==> r.value.side.value in SIDE_WORDS
    ensures r.Some? && r.value.rankType.Some? ==> r.value.rankType.value in TYPE_WORDS
    ensures r.Some? && r.value.k.Some? ==> |r.value.k.value| > 0 && AllDigits(r.value.k.value)
  {
    var n := NameRun(s);
    if n == 0 then None
    else
      var (side, rankType, k) := MatchGroups(s[n..]);
      Some(PatternMatch(s[..n], side, rankType, k))
  }

  /** The optional side, type and k groups matched right after the name. */
  function MatchGroups(rest: string): (r: (Option<string>, Option<string>, Option<string>))
    ensures r.0.Some? ==> r.0.value in SIDE_WORDS
    ensures r.1.Some? ==> r.1.value in TYPE_WORDS
    ensures r.2.Some? ==> |r.2.value| > 0 && AllDigits(r.2.value)
  {
    var (rest1, side) := OptionalGroup(rest, SIDE_WORDS);
    var (rest2, rankType) := OptionalGroup(rest1, TYPE_WORDS);
    (side, rankType, KGroup(rest2))
  }

  /** The optional `(\.(?P<k>\d+))?` group: a dot followed by a greedy run of digits. */
  function KGroup(rest: string): (r: Option<string>)
    ensures r.Some? ==> |r.value| > 0 && AllDigits(r.value)
  {
    if |rest| >= 2 && rest[0] == '.' && IsDigit(rest[1]) then Some(rest[1..][..DigitRun(rest[1..])])
    else None
  }

  /**
   * `HITS_PATTERN.match(name)` for `(hits_at_|hits@|h@)(?P<k>\d+)`: the digits captured after
   * the first prefix that is followed by at least one digit.
   */
  function HitsMatch(name: string): (r: Option<string>)
    ensures r.Some? ==> |r.value| > 0 && AllDigits(r.value)
  {
    if "hits_at_" <= name && |name| > 8 && IsDigit(name[8]) then Some(name[8..][..DigitRun(name[8..])])
    else if "hits@" <= name && |name| > 5 && IsDigit(name[5]) then Some(name[5..][..DigitRun(name[5..])])
    else if "h@" <= name && |name| > 2 && IsDigit(name[2]) then Some(name[2..][..DigitRun(name[2..])])
    else None
  }

  /** `name.lower().replace(" ", "_")`. */
  function FoldName(name: string): string {
    SpacesToUnderscores(Lower(name))
  }

  /** `int(k)` as `lookup` applies it: an int stays, a digit string is read; anything else fails. */
  function ToInt(k: KValue): Option<int> {
    match k
    case KInt(n) => Some(n)
    case KText(t) => if |t| > 0 && AllDigits(t) then Some(DigitsValue(t)) else None
    case NoK => None
  }

  /** The name and `k` after the hits@k special case (metrics.py, lines 89-103). */
  function ResolveHits(folded: string, k: KValue): Result<(string, KValue), LookupError> {
    var (name, k) := match HitsMatch(folded)
      case Some(d) => (HITS_AT_K, KText(d))
      case None => (folded, k);
    if name == HITS_AT_K then
      var k := if k == NoK then KInt(10) else k;
      match ToInt(k)
      case None => Failure(InvalidK(if k.KText? then k.text else ""))
      case Some(n) => if n < 0 then Failure(NegativeK(n)) else Success((name, KInt(n)))
    else Success((name, k))
  }

  /** `METRIC_SYNONYMS.get(name, name)`. */
  function Canonical(name: string): string {
    if name in METRIC_SYNONYMS then METRIC_SYNONYMS[name] else name
  }

  /** The side group, defaulted to "both" and lower-cased. */
  function SideText(side: Option<string>): string {
    Lower(side.GetOr("both"))
  }

  /** The rank-type group, defaulted to "realistic", lower-cased and mapped through the synonyms. */
  function RankTypeText(rankType: Option<string>): string {
    var t := Lower(rankType.GetOr("realistic"));
    if t in RANK_TYPE_SYNONYMS then RANK_TYPE_SYNONYMS[t] else t
  }

  /** `MetricKey.lookup(s)`, metrics.py lines 75-124. */
  function Lookup(s: string): Result<MetricKey, LookupError> {
    match MatchPattern(s)
    case None => Failure(InvalidMetricName(s))
    case Some(m) =>
      if m.name == [] then Failure(MissingName)
      else
        var k0 := if m.k.Some? then KText(m.k.value) else NoK;
        match ResolveHits(FoldName(m.name), k0)
        case Failure(e) => Failure(e)
        case Success((name, k)) =>
          if k.KText? then Failure(KIsNotAnInteger(k.text))
          else
            var name := Canonical(name);
            var sideText := SideText(m.side);
            match SideOfName(sideText)
            case None => Failure(InvalidSide(sideText))
            case Some(side) =>
              var typeText := RankTypeText(m.rankType);
              match RankTypeOfName(typeText)
              case None => Failure(InvalidRankType(typeText))
              case Some(rankType) =>
                if rankType != Realistic && name in TYPES_REALISTIC_ONLY then Failure(RealisticOnly(name, rankType))
                else Success(MetricKey(name, side, rankType, if k.KInt? then Some(k.n) else None))
  }

  /** `str(key)`: name.side.rank_type, with ".k" only when k is truthy (present and non-zero). */
  function KeyToString(key: MetricKey): string {
    var base := key.name + "." + SideName(key.side) + "." + RankTypeName(key.rankType);
    if key.k.Some? && key.k.value != 0 then base + "." + IntToString(key.k.value) else base
  }

  /** `MetricKey.normalize(s) == str(MetricKey.lookup(s))`. */
  function Normalize(s: string): Result<string, LookupError> {
    match Lookup(s)
    case Success(key) => Success(KeyToString(key))
    case Failure(e) => Failure(e)
  }

  // ---------------------------------------------------------------------------
  // Declarative reading of the groups, and the properties of lookup.

  /** The side a side group denotes: the captured word, or "both" when absent. */
  function GroupSide(side: Option<string>): Side
    requires side.Some? ==> side.value in SIDE_WORDS
  {
    match side
    case None => Both
    case Some(w) => if w == "head" then Head else if w == "tail" then Tail else Both
  }

  /** The rank type a type group denotes: the captured word or synonym, or realistic when absent. */
  function GroupRankType(rankType: Option<string>): (t: RankType)
    requires rankType.Some? ==> rankType.value in TYPE_WORDS
    ensures IsBaseRankType(t)
  {
    match rankType
    case None => Realistic
    case Some(w) =>
      if w == "optimistic" || w == "best" then Optimistic
      else if w == "pessimistic" || w == "worst" then Pessimistic
      else Realistic
  }

  /** Whether lookup treats a folded name as hits@k. */
  predicate IsHitsName(folded: string) {
    HitsMatch(folded).Some? || folded == HITS_AT_K
  }

  lemma HitsAtKIsPlain()
    ensures HITS_AT_K !in METRIC_SYNONYMS && HITS_AT_K !in TYPES_REALISTIC_ONLY
    ensures Canonical(HITS_AT_K) == HITS_AT_K
  {
    assert HITS_AT_K[0] == 'h' && |HITS_AT_K| == 9;
  }

  lemma HitsAtKIsNotAlias()
    ensures HitsMatch(HITS_AT_K).None?
  {
    assert HITS_AT_K[8] == 'k';
    assert !("hits@" <= HITS_AT_K) by { assert HITS_AT_K[4] != '@'; }
    assert !("h@" <= HITS_AT_K) by { assert HITS_AT_K[1] != '@'; }
  }

  lemma ResolveHitsOfAlias(folded: string, k: KValue, d: string)
    requires HitsMatch(folded) == Some(d)
    ensures ResolveHits(folded, k) == Success((HITS_AT_K, KInt(DigitsValue(d))))
  {
  }

  lemma ResolveHitsOfHitsAtK(k: KValue)
    requires k.NoK? || (k.KText? && |k.text| > 0 && AllDigits(k.text))
    ensures ResolveHits(HITS_AT_K, k) == Success((HITS_AT_K, KInt(if k.KText? then DigitsValue(k.text) else 10)))
  {
    HitsAtKIsNotAlias();
  }

  lemma SideGroupResolves(m: PatternMatch)
    requires m.side.Some? ==> m.side.value in SIDE_WORDS
    ensures SideOfName(SideText(m.side)) == Some(GroupSide(m.side))
  {
    var w := m.side.GetOr("both");
    LowerOfLowercase(w);
  }

  lemma RankTypeGroupResolves(m: PatternMatch)
    requires m.rankType.Some? ==> m.rankType.value in TYPE_WORDS
    ensures RankTypeOfName(RankTypeText(m.rankType)) == Some(GroupRankType(m.rankType))
  {
    var w := m.rankType.GetOr("realistic");
    TypeWordIsLowercase(w);
    if w in RANK_TYPE_SYNONYMS {
      RankTypeSynonymResolves(w);
    } else {
      RankTypeWordResolves(w);
    }
  }

  lemma TypeWordIsLowercase(w: string)
    requires w in TYPE_WORDS
    ensures Lower(w) == w
  {
    LowerOfLowercase(w);
  }

  lemma RankTypeWordResolves(w: string)
    requires w in TYPE_WORDS && w !in RANK_TYPE_SYNONYMS
    ensures RankTypeOfName(w) == Some(GroupRankType(Some(w)))
  {
    assert w == "optimistic" || w == "realistic" || w == "pessimistic";
  }

  lemma RankTypeSynonymResolves(w: string)
    requires w in RANK_TYPE_SYNONYMS
    ensures w in TYPE_WORDS
    ensures RankTypeOfName(RANK_TYPE_SYNONYMS[w]) == Some(GroupRankType(Some(w)))
  {
  }

  /**
   * A hits alias (`hits_at_N`, `hits@N`, `h@N`) becomes `hits_at_k` with k = N, whatever the
   * trailing `.k` group says; side and rank type come from their groups.
   */
  lemma LookupHitsAlias(s: string, m: PatternMatch, d: string)
    requires MatchPattern(s) == Some(m)
    requires HitsMatch(FoldName(m.name)) == Some(d)
    ensures Lookup(s) == Success(MetricKey(HITS_AT_K, GroupSide(m.side), GroupRankType(m.rankType), Some(DigitsValue(d))))
  {
    ResolveHitsOfAlias(FoldName(m.name), if m.k.Some? then KText(m.k.value) else NoK, d);
    HitsAtKIsPlain();
    SideGroupResolves(m);
    RankTypeGroupResolves(m);
  }

  /** The name `hits_at_k` takes k from the `.k` group, and 10 when there is none. */
  lemma LookupHitsAtK(s: string, m: PatternMatch)
    requires MatchPattern(s) == Some(m)
    requires FoldName(m.name) == HITS_AT_K
    ensures Lookup(s) == Success(MetricKey(HITS_AT_K, GroupSide(m.side), GroupRankType(m.rankType),
                                           Some(if m.k.Some? then DigitsValue(m.k.value) else 10)))
  {
    ResolveHitsOfHitsAtK(if m.k.Some? then KText(m.k.value) else NoK);
    HitsAtKIsPlain();
    SideGroupResolves(m);
    RankTypeGroupResolves(m);
  }

  /**
   * Any other name: a `.k` group trips the integer assertion; otherwise the name goes through
   * the synonym table and only a non-realistic type for AAMR/AAMRI is rejected.
   */
  lemma LookupOtherName(s: string, m: PatternMatch)
    requires MatchPattern(s) == Some(m)
    requires !IsHitsName(FoldName(m.name))
    ensures m.k.Some? ==> Lookup(s) == Failure(KIsNotAnInteger(m.k.value))
    ensures m.k.None? ==>
      var name := Canonical(FoldName(m.name));
      var rankType := GroupRankType(m.rankType);
      Lookup(s) == if rankType != Realistic && name in TYPES_REALISTIC_ONLY then Failure(RealisticOnly(name, rankType))
                   else Success(MetricKey(name, GroupSide(m.side), rankType, None))
  {
    SideGroupResolves(m);
    RankTypeGroupResolves(m);
  }

  /** `lookup` fails with the invalid-name error exactly when the pattern does not match a prefix. */
  lemma LookupRejectsUnmatched(s: string)
    ensures Lookup(s) == Failure(InvalidMetricName(s)) <==> s == [] || !IsNameChar(s[0])
  {
    match MatchPattern(s)
    case None =>
    case Some(m) =>
      if IsHitsName(FoldName(m.name)) {
        if HitsMatch(FoldName(m.name)).Some? {
          LookupHitsAlias(s, m, HitsMatch(FoldName(m.name)).value);
        } else {
          LookupHitsAtK(s, m);
        }
      } else {
        LookupOtherName(s, m);
      }
  }

  /**
   * The empty-name, invalid-k, negative-k, invalid-side and invalid-rank-type errors can never be
   * raised: the pattern only captures non-empty names, digit strings and listed words.
   */
  lemma LookupReachableErrors(s: string)
    requires Lookup(s).Failure?
    ensures Lookup(s).error.InvalidMetricName? || Lookup(s).error.KIsNotAnInteger? || Lookup(s).error.RealisticOnly?
  {
    match MatchPattern(s)
    case None =>
    case Some(m) =>
      if IsHitsName(FoldName(m.name)) {
        if HitsMatch(FoldName(m.name)).Some? {
          LookupHitsAlias(s, m, HitsMatch(FoldName(m.name)).value);
        } else {
          LookupHitsAtK(s, m);
        }
      } else {
        LookupOtherName(s, m);
      }
  }

  // ---------------------------------------------------------------------------
  // Round trip: what lookup produces, str() writes back in a form lookup reads unchanged.

  /** A name lookup can produce: lower-case name characters, no hits alias, no synonym. */
  predicate CanonicalName(name: string) {
    && |name| > 0
    && AllNameChars(name)
    && NoUpper(name)
    && HitsMatch(name).None?
    && name !in METRIC_SYNONYMS
  }

  /** The shape of every key lookup returns: k is present exactly for hits@k, and is non-negative. */
  predicate CanonicalKey(key: MetricKey) {
    && CanonicalName(key.name)
    && IsBaseRankType(key.rankType)
    && (key.k.Some? <==> key.name == HITS_AT_K)
    && (key.k.Some? ==> key.k.value >= 0)
    && (key.name in TYPES_REALISTIC_ONLY ==> key.rankType == Realistic)
  }

  lemma HitsAtKIsCanonical()
    ensures CanonicalName(HITS_AT_K)
  {
    HitsAtKIsNotAlias();
    HitsAtKIsPlain();
  }

  lemma SynonymKeysAreShort()
    ensures forall w :: w in METRIC_SYNONYMS ==> |w| <= 24 && (|w| == 20 ==> w[0] == 'm')
  {
  }

  /** No synonym begins with the letter of the hits aliases. */
  lemma SynonymKeysAvoidH()
    ensures forall w :: w in METRIC_SYNONYMS ==> |w| > 0 && w[0] != 'h'
  {
  }

  lemma HitsMatchNeedsH(name: string)
    requires |name| == 0 || name[0] != 'h'
    ensures HitsMatch(name).None?
  {
    assert !("hits_at_" <= name) && !("hits@" <= name) && !("h@" <= name) by {
      if |name| > 0 { assert name[0] != 'h'; }
    }
  }

  lemma CanonicalTarget(c: string)
    requires |c| > 24 || (|c| == 20 && c[0] == 'a')
    requires c[0] != 'h' && AllNameChars(c) && NoUpper(c)
    ensures CanonicalName(c)
  {
    SynonymKeysAreShort();
    HitsMatchNeedsH(c);
  }

  /** The canonical names the synonym table maps to. */
  const SYNONYM_TARGETS: set<string> := {ADJUSTED_ARITHMETIC_MEAN_RANK, ADJUSTED_ARITHMETIC_MEAN_RANK_INDEX,
    "inverse_geometric_mean_rank", "inverse_arithmetic_mean_rank", "arithmetic_mean_rank", "inverse_harmonic_mean_rank"}

  lemma SynonymTargetsListed(w: string)
    requires w in METRIC_SYNONYMS
    ensures METRIC_SYNONYMS[w] in SYNONYM_TARGETS
  {
  }

  lemma {:induction false} LowerNameChars(c: string)
    requires forall i :: 0 <= i < |c| ==> 'a' <= c[i] <= 'z' || c[i] == '_'
    ensures AllNameChars(c) && NoUpper(c)
  {
  }

  lemma TargetIsCanonical(c: string)
    requires c in SYNONYM_TARGETS
    ensures CanonicalName(c) && c != HITS_AT_K
  {
    if c == ADJUSTED_ARITHMETIC_MEAN_RANK { AdjustedMeanRankIsCanonical(c); }
    else if c == ADJUSTED_ARITHMETIC_MEAN_RANK_INDEX { AdjustedMeanRankIndexIsCanonical(c); }
    else if c == "inverse_geometric_mean_rank" { InverseGeometricMeanRankIsCanonical(c); }
    else if c == "inverse_arithmetic_mean_rank" { InverseArithmeticMeanRankIsCanonical(c); }
    else if c == "arithmetic_mean_rank" { ArithmeticMeanRankIsCanonical(c); }
    else { InverseHarmonicMeanRankIsCanonical(c); }
  }

  lemma AdjustedMeanRankIsCanonical(c: string)
    requires c == ADJUSTED_ARITHMETIC_MEAN_RANK
    ensures CanonicalName(c) && c != HITS_AT_K
  {
    LowerNameChars(c);
    CanonicalTarget(c);
  }

  lemma AdjustedMeanRankIndexIsCanonical(c: string)
    requires c == ADJUSTED_ARITHMETIC_MEAN_RANK_INDEX
    ensures CanonicalName(c) && c != HITS_AT_K
  {
    LowerNameChars(c);
    CanonicalTarget(c);
  }

  lemma InverseGeometricMeanRankIsCanonical(c: string)
    requires c == "inverse_geometric_mean_rank"
    ensures CanonicalName(c) && c != HITS_AT_K
  {
    LowerNameChars(c);
    CanonicalTarget(c);
  }

  lemma InverseArithmeticMeanRankIsCanonical(c: string)
    requires c == "inverse_arithmetic_mean_rank"
    ensures CanonicalName(c) && c != HITS_AT_K
  {
    LowerNameChars(c);
    CanonicalTarget(c);
  }

  lemma ArithmeticMeanRankIsCanonical(c: string)
    requires c == "arithmetic_mean_rank"
    ensures CanonicalName(c) && c != HITS_AT_K
  {
    LowerNameChars(c);
    CanonicalTarget(c);
  }

  lemma InverseHarmonicMeanRankIsCanonical(c: string)
    requires c == "inverse_harmonic_mean_rank"
    ensures CanonicalName(c) && c != HITS_AT_K
  {
    LowerNameChars(c);
    CanonicalTarget(c);
  }

  lemma SynonymTargetsAreCanonical(w: string)
    requires w in METRIC_SYNONYMS
    ensures CanonicalName(METRIC_SYNONYMS[w]) && METRIC_SYNONYMS[w] != HITS_AT_K
  {
    SynonymTargetsListed(w);
    TargetIsCanonical(METRIC_SYNONYMS[w]);
  }

  /** Every key lookup returns is canonical. */
  lemma LookupIsCanonical(s: string)
    requires Lookup(s).Success?
    ensures CanonicalKey(Lookup(s).value)
  {
    var m := MatchPattern(s).value;
    if IsHitsName(FoldName(m.name)) {
      HitsLookupIsCanonical(s, m);
    } else {
      OtherLookupIsCanonical(s, m);
    }
  }

  lemma HitsLookupIsCanonical(s: string, m: PatternMatch)
    requires MatchPattern(s) == Some(m) && IsHitsName(FoldName(m.name))
    ensures Lookup(s).Success? && CanonicalKey(Lookup(s).value)
  {
    var folded := FoldName(m.name);
    if HitsMatch(folded).Some? {
      LookupHitsAlias(s, m, HitsMatch(folded).value);
      HitsKeyIsCanonical(GroupSide(m.side), GroupRankType(m.rankType), DigitsValue(HitsMatch(folded).value));
    } else {
      LookupHitsAtK(s, m);
      HitsKeyIsCanonical(GroupSide(m.side), GroupRankType(m.rankType), if m.k.Some? then DigitsValue(m.k.value) else 10);
    }
  }

  lemma HitsKeyIsCanonical(side: Side, t: RankType, k: nat)
    requires IsBaseRankType(t)
    ensures CanonicalKey(MetricKey(HITS_AT_K, side, t, Some(k)))
  {
    HitsAtKIsCanonical();
    HitsAtKIsPlain();
  }

  lemma OtherLookupIsCanonical(s: string, m: PatternMatch)
    requires MatchPattern(s) == Some(m) && !IsHitsName(FoldName(m.name))
    requires Lookup(s).Success?
    ensures CanonicalKey(Lookup(s).value)
  {
    var folded := FoldName(m.name);
    LookupOtherName(s, m);
    LowerKeepsNameChars(m.name);
    LowerIsLowercase(m.name);
    SpacesToUnderscoresOfNameChars(Lower(m.name));
    if folded in METRIC_SYNONYMS {
      SynonymTargetsAreCanonical(folded);
    }
  }

  lemma SideGroupOfName(side: Side, tail: string)
    ensures FirstAlternative([ '.' ] + SideName(side) + tail, SIDE_WORDS) == Some(SideName(side))
    ensures GroupSide(Some(SideName(side))) == side
  {
    var rest := [ '.' ] + SideName(side) + tail;
    assert [ '.' ] + SideName(side) <= rest;
    assert rest[1] == SideName(side)[0];
  }

  lemma TypeGroupOfName(t: RankType, tail: string)
    requires IsBaseRankType(t)
    ensures FirstAlternative([ '.' ] + RankTypeName(t) + tail, TYPE_WORDS) == Some(RankTypeName(t))
    ensures GroupRankType(Some(RankTypeName(t))) == t
  {
    var rest := [ '.' ] + RankTypeName(t) + tail;
    assert [ '.' ] + RankTypeName(t) <= rest;
    match t
    case Optimistic =>
    case Realistic =>
      SkipAlternative(rest, TYPE_WORDS, 'r');
    case Pessimistic =>
      SkipAlternative(rest, TYPE_WORDS, 'p');
      SkipAlternative(rest, TYPE_WORDS[1..], 'p');
  }

  /** An alternative whose first letter differs from the text's is passed over. */
  lemma SkipAlternative(rest: string, words: seq<string>, c: char)
    requires |words| > 0 && |words[0]| > 0 && words[0][0] != c
    requires |rest| > 1 && rest[1] == c
    ensures FirstAlternative(rest, words) == FirstAlternative(rest, words[1..])
  {
    assert ([ '.' ] + words[0])[1] != rest[1];
  }

  /** No alternative matches when none starts with the letter after the dot. */
  lemma {:induction false} NoAlternative(rest: string, words: seq<string>)
    requires |rest| > 1
    requires forall i :: 0 <= i < |words| ==> |words[i]| > 0 && words[i][0] != rest[1]
    ensures FirstAlternative(rest, words) == None
  {
    if words != [] {
      SkipAlternative(rest, words, rest[1]);
      NoAlternative(rest, words[1..]);
    }
  }

  /** A type group right after the name, with nothing after it. */
  lemma MatchGroupsOfTypeOnly(t: RankType)
    requires IsBaseRankType(t)
    ensures MatchGroups([ '.' ] + RankTypeName(t)) == (None, Some(RankTypeName(t)), None)
  {
    var rest := [ '.' ] + RankTypeName(t);
    assert rest == [ '.' ] + RankTypeName(t) + "";
    NoAlternative(rest, SIDE_WORDS);
    TypeGroupOfName(t, "");
    assert rest[|RankTypeName(t)| + 1..] == "";
  }

  /** A `.k` group right after the name. */
  lemma MatchGroupsOfDigits(d: string)
    requires |d| > 0 && AllDigits(d)
    ensures MatchGroups([ '.' ] + d) == (None, None, Some(d))
  {
    var rest := [ '.' ] + d;
    assert IsDigit(rest[1]);
    NoAlternative(rest, SIDE_WORDS);
    NoAlternative(rest, TYPE_WORDS);
    assert rest[1..] == d + "";
    DigitRunOfConcat(d, "");
  }

  /** The `.k` group of the text str(key) ends with. */
  lemma KGroupOfKeySuffix(k: Option<int>)
    requires k.Some? ==> k.value > 0
    ensures KGroup(KeySuffix(k))
            == if k.Some? then Some(NatToString(k.value)) else None
  {
    if k.Some? {
      var n := NatToString(k.value);
      var digits := [ '.' ] + n;
      assert digits[1..] == n + [];
      DigitRunOfConcat(n, []);
    }
  }

  lemma MatchPatternOfParts(name: string, rest: string)
    requires |name| > 0 && AllNameChars(name)
    requires |rest| > 0 && rest[0] == '.'
    ensures MatchPattern(name + rest) == Some(PatternMatch(name, MatchGroups(rest).0, MatchGroups(rest).1, MatchGroups(rest).2))
  {
    var str := name + rest;
    NameRunOfConcat(name, rest);
    assert str[..|name|] == name && str[|name|..] == rest;
  }

  lemma MatchGroupsOfKeySuffix(side: Side, t: RankType, digits: string)
    requires IsBaseRankType(t)
    ensures MatchGroups([ '.' ] + SideName(side) + ([ '.' ] + RankTypeName(t) + digits))
            == (Some(SideName(side)), Some(RankTypeName(t)), KGroup(digits))
  {
    var sn, tn := SideName(side), RankTypeName(t);
    var rest2 := [ '.' ] + tn + digits;
    var rest1 := [ '.' ] + sn + rest2;
    assert OptionalGroup(rest1, SIDE_WORDS) == (rest2, Some(sn)) by {
      SideGroupOfName(side, rest2);
      assert rest1[|sn| + 1..] == rest2;
    }
    assert OptionalGroup(rest2, TYPE_WORDS) == (digits, Some(tn)) by {
      TypeGroupOfName(t, digits);
      assert rest2[|tn| + 1..] == digits;
    }
  }

  /** The groups METRIC_PATTERN captures from str(key). */
  lemma MatchOfKeyToString(key: MetricKey)
    requires CanonicalKey(key)
    requires key.k != Some(0)
    ensures MatchPattern(KeyToString(key)) ==
      Some(PatternMatch(key.name, Some(SideName(key.side)), Some(RankTypeName(key.rankType)),
                        if key.k.Some? then Some(NatToString(key.k.value)) else None))
  {
    var digits := KeySuffix(key.k);
    var rest := [ '.' ] + SideName(key.side) + ([ '.' ] + RankTypeName(key.rankType) + digits);
    KeyToStringParts(key);
    MatchPatternOfParts(key.name, rest);
    MatchGroupsOfKeySuffix(key.side, key.rankType, digits);
    KGroupOfKeySuffix(key.k);
  }

  /** The text str(key) ends with: ".k" for a positive k, nothing otherwise. */
  function KeySuffix(k: Option<int>): string
    requires k.Some? ==> k.value > 0
  {
    if k.Some? then [ '.' ] + NatToString(k.value) else ""
  }

  lemma KeyToStringParts(key: MetricKey)
    requires key.k.Some? ==> key.k.value > 0
    ensures KeyToString(key)
      == key.name + ([ '.' ] + SideName(key.side) + ([ '.' ] + RankTypeName(key.rankType) + KeySuffix(key.k)))
  {
  }

  /** Reading str(key) back gives the same key, for every canonical key whose k is not zero. */
  lemma LookupOfKeyToString(key: MetricKey)
    requires CanonicalKey(key)
    requires key.k != Some(0)
    ensures Lookup(KeyToString(key)) == Success(key)
  {
    var s := KeyToString(key);
    MatchOfKeyToString(key);
    var m := MatchPattern(s).value;
    SideGroupOfName(key.side, "");
    TypeGroupOfName(key.rankType, "");
    LowerOfLowercase(key.name);
    SpacesToUnderscoresOfNameChars(key.name);
    assert FoldName(m.name) == key.name;
    if key.name == HITS_AT_K {
      LookupHitsAtK(s, m);
      DigitsValueOfNatToString(key.k.value);
    } else {
      LookupOtherName(s, m);
    }
  }

  /** `normalize` is idempotent whenever the key it produces does not carry k = 0. */
  lemma NormalizeIdempotent(s: string)
    requires Lookup(s).Success? && Lookup(s).value.k != Some(0)
    ensures Normalize(s).Success?
    ensures Normalize(Normalize(s).value) == Normalize(s)
  {
    LookupIsCanonical(s);
    LookupOfKeyToString(Lookup(s).value);
  }

  // ---------------------------------------------------------------------------
  // Worked examples.

  /** A bare name with no groups. */
  lemma MatchPatternOfName(name: string)
    requires |name| > 0 && AllNameChars(name)
    ensures MatchPattern(name) == Some(PatternMatch(name, None, None, None))
  {
    NameRunOfConcat(name, "");
    assert name + "" == name;
    assert name[..|name|] == name;
    assert FirstAlternative("", SIDE_WORDS) == None;
    assert FirstAlternative("", TYPE_WORDS) == None;
  }

  /** The `hits@N` alias captures N. */
  lemma HitsMatchOfAt(d: string)
    requires |d| > 0 && AllDigits(d)
    ensures HitsMatch("hits@" + d) == Some(d)
  {
    var name := "hits@" + d;
    assert name[4] == '@';
    assert "hits@" <= name;
    assert name[5..] == d + "";
    DigitRunOfConcat(d, "");
  }

  /** A lower-case name that does not start with `h` is neither folded nor taken for hits@k. */
  lemma PlainName(name: string)
    requires |name| > 0 && AllNameChars(name) && NoUpper(name) && name[0] != 'h'
    ensures FoldName(name) == name && !IsHitsName(name)
  {
    LowerOfLowercase(name);
    SpacesToUnderscoresOfNameChars(name);
    HitsMatchNeedsH(name);
  }

  /** A bare lower-case name other than hits@k is looked up through the synonym table, on both sides, realistic. */
  lemma LookupOfPlainName(name: string)
    requires |name| > 0 && AllNameChars(name) && NoUpper(name) && !IsHitsName(name)
    ensures Lookup(name) == Success(MetricKey(Canonical(name), Both, Realistic, None))
  {
    MatchPatternOfName(name);
    LowerOfLowercase(name);
    SpacesToUnderscoresOfNameChars(name);
    LookupOtherName(name, PatternMatch(name, None, None, None));
  }

  lemma CanonicalOfMrr()
    ensures Canonical("mrr") == "inverse_harmonic_mean_rank"
  {
  }

  /** `mrr` and its spelled-out canonical form name the same key. */
  lemma LookupMrr()
    ensures Lookup("mrr") == Success(MetricKey("inverse_harmonic_mean_rank", Both, Realistic, None))
  {
    PlainName("mrr");
    LookupOfPlainName("mrr");
    CanonicalOfMrr();
  }

  lemma HitsAtNameChars(d: string)
    requires AllDigits(d)
    ensures AllNameChars("hits@" + d) && NoUpper("hits@" + d)
  {
    var s := "hits@" + d;
    forall i | 0 <= i < |s| ensures IsNameChar(s[i]) && !IsUpper(s[i]) {
      if i >= 5 { assert s[i] == d[i - 5]; }
    }
  }

  /** `hits@N`, with no further groups, is hits@k with k = N on both sides, realistic. */
  lemma LookupOfHitsAt(d: string)
    requires |d| > 0 && AllDigits(d)
    ensures Lookup("hits@" + d) == Success(MetricKey(HITS_AT_K, Both, Realistic, Some(DigitsValue(d))))
  {
    var s := "hits@" + d;
    HitsAtNameChars(d);
    MatchPatternOfName(s);
    LowerOfLowercase(s);
    SpacesToUnderscoresOfNameChars(s);
    HitsMatchOfAt(d);
    LookupHitsAlias(s, PatternMatch(s, None, None, None), d);
  }

  /** `hits@5` is hits@k with k = 5 on both sides, realistic. */
  lemma LookupHitsAt5()
    ensures Lookup("hits@5") == Success(MetricKey(HITS_AT_K, Both, Realistic, Some(5)))
  {
    assert "hits@5" == "hits@" + "5";
    LookupOfHitsAt("5");
    assert DigitsValue("5") == 5;
  }

  /** A trailing `.k` on a metric other than hits@k stays a string and trips the integer assertion. */
  lemma LookupMeanRankWithK()
    ensures Lookup("mr.5") == Failure(KIsNotAnInteger("5"))
  {
    MatchMeanRankWithK();
    PlainName("mr");
    LookupOtherName("mr.5", PatternMatch("mr", None, None, Some("5")));
  }

  lemma MatchMeanRankWithK()
    ensures MatchPattern("mr.5") == Some(PatternMatch("mr", None, None, Some("5")))
  {
    assert "mr.5" == "mr" + ([ '.' ] + "5");
    MatchPatternOfParts("mr", [ '.' ] + "5");
    MatchGroupsOfDigits("5");
  }

  lemma AmriIsAamri()
    ensures FoldName("amri") == "amri" && !IsHitsName("amri")
    ensures Canonical("amri") == ADJUSTED_ARITHMETIC_MEAN_RANK_INDEX
    ensures ADJUSTED_ARITHMETIC_MEAN_RANK_INDEX in TYPES_REALISTIC_ONLY
  {
    PlainName("amri");
  }

  /** AAMRI only exists for the realistic rank type. */
  lemma LookupAmriOptimistic()
    ensures Lookup("amri.optimistic") == Failure(RealisticOnly(ADJUSTED_ARITHMETIC_MEAN_RANK_INDEX, Optimistic))
  {
    MatchAmriOptimistic();
    AmriIsAamri();
    var m := PatternMatch("amri", None, Some("optimistic"), None);
    assert GroupRankType(m.rankType) == Optimistic;
    LookupOtherName("amri.optimistic", m);
  }

  lemma MatchAmriOptimistic()
    ensures MatchPattern("amri.optimistic") == Some(PatternMatch("amri", None, Some("optimistic"), None))
  {
    var rest := [ '.' ] + RankTypeName(Optimistic);
    assert rest == ".optimistic" by { assert RankTypeName(Optimistic) == "optimistic"; }
    assert "amri.optimistic" == "amri" + rest;
    MatchPatternOfParts("amri", rest);
    MatchGroupsOfTypeOnly(Optimistic);
  }

  lemma HitsAtKSpelledOut()
    ensures HITS_AT_K + ([ '.' ] + SideName(Both) + ([ '.' ] + RankTypeName(Realistic) + "")) == "hits_at_k.both.realistic"
  {
  }

  lemma HitsAtKStrings()
    ensures KeyToString(MetricKey(HITS_AT_K, Both, Realistic, Some(0))) == "hits_at_k.both.realistic"
    ensures KeyToString(MetricKey(HITS_AT_K, Both, Realistic, Some(10))) == "hits_at_k.both.realistic.10"
  {
    assert NatToString(10) == "10";
  }

  /**
   * A name that only begins like a hits alias is neither rewritten nor given a k: `hits` stays `hits`,
   * which the result table has no entry for.
   */
  lemma LookupOfHitsPrefix(c: string)
    requires c == "hits"
    ensures Lookup(c) == Success(MetricKey(c, Both, Realistic, None))
  {
    assert |c| == 4 && c[0] == 'h' && c[1] == 'i' && c[2] == 't' && c[3] == 's';
    assert AllNameChars(c) && NoUpper(c);
    MatchPatternOfName(c);
    LowerOfLowercase(c);
    SpacesToUnderscoresOfNameChars(c);
    assert !("hits_at_" <= c) && !("hits@" <= c) && !("h@" <= c);
    assert c != HITS_AT_K;
    SynonymKeysAvoidH();
    LookupOtherName(c, PatternMatch(c, None, None, None));
  }

  /** `hits@0` normalises to a string without k, since str() drops a k of 0. */
  lemma NormalizeHitsAt0()
    ensures Normalize("hits@0") == Success("hits_at_k.both.realistic")
  {
    assert "hits@0" == "hits@" + "0";
    LookupOfHitsAt("0");
    assert DigitsValue("0") == 0;
    HitsAtKStrings();
  }

  /**
   * Reading back the normal form of `hits@0` defaults k to 10, so normalize is not idempotent
   * on keys with k = 0.
   */
  lemma NormalizeNotIdempotentAtZeroK()
    ensures Normalize("hits@0") == Success("hits_at_k.both.realistic")
    ensures Normalize("hits_at_k.both.realistic") == Success("hits_at_k.both.realistic.10")
  {
    NormalizeHitsAt0();
    var rest := [ '.' ] + SideName(Both) + ([ '.' ] + RankTypeName(Realistic) + "");
    HitsAtKSpelledOut();
    HitsAtKStrings();
    var t := HITS_AT_K + rest;
    HitsAtKIsCanonical();
    MatchPatternOfParts(HITS_AT_K, rest);
    MatchGroupsOfKeySuffix(Both, Realistic, "");
    assert KGroup("") == None;
    var m := PatternMatch(HITS_AT_K, Some(SideName(Both)), Some(RankTypeName(Realistic)), None);
    assert MatchPattern(t) == Some(m);
    LowerOfLowercase(HITS_AT_K);
    SpacesToUnderscoresOfNameChars(HITS_AT_K);
    LookupHitsAtK(t, m);
    SideGroupOfName(Both, "");
    TypeGroupOfName(Realistic, "");
  }
}
