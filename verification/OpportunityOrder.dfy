/** Ordering of opportunity records: the comparator of sortOpportunities, rule by rule. */
module OpportunityOrder {
  import opened Sequences
  import F = FitReview
  import Q = QuestionScreening
  import A = AssessmentProjection
  import S = StableSort

  datatype SortField = Best | Eligibility | CitedSupport | Recommendation | Newest | Score | Salary | Rating
  datatype Direction = Asc | Desc

  datatype Opportunity = Opportunity(
    id: string,
    status: string,
    postedAt: Option<real>,
    firstSeenAt: Option<real>,
    updatedAt: Option<real>,
    salaryMin: Option<real>,
    salaryMax: Option<real>,
    humanRating: Option<real>,
    latestScore: Option<real>,
    review: F.ReviewRecord,
    screening: Q.ScreeningRecord,
    sourceEligibility: Option<A.Assessment>,
    assessment: Option<A.Assessment>)

  const STATUS_ORDER: seq<string> := [
    "apply", "applied", "interviewing", "offer", "recommended", "found",
    "maybe", "needs_input", "archived", "reject", "rejected", "closed"]

  /** A sort key; Missing stands for the source's negative infinity. */
  datatype Key = Missing | At(v: real)

  function KeyOf(x: Option<real>): Key {
    if x.Some? then At(x.value) else Missing
  }

  function KeyOfCount(x: Option<int>): Key {
    if x.Some? then At(x.value as real) else Missing
  }

  function Or(first: real, second: real): real {
    if first != 0.0 then first else second
  }

  /** Missing values last in both directions. */
  function Compare(left: Key, right: Key, order: Direction): real {
    if left == right then 0.0
    else if left.Missing? then 1.0
    else if right.Missing? then -1.0
    else if order == Asc then left.v - right.v
    else right.v - left.v
  }

  // ------------------------------------------------ what sorting reads

  datatype Support = Support(supported: Key, lowerBound: Key, relevance: Key, partial: Key, partialBound: Key)

  datatype Native = Native(supported: real, lowerBound: Key)

  /** Everything the comparator reads from one record. */
  datatype Standing = Standing(
    id: string,
    statusRank: real,
    posted: Key,
    salary: Key,
    rating: Key,
    updated: Key,
    latestScore: Key,
    screened: bool,
    conflicts: real,
    recommendation: Key,
    coverage: Key,
    priority: real,
    fitScore: real,
    assessable: bool,
    completeTier: bool,
    native: Option<Native>,  // of a complete review that considered some criterion
    cited: Support)

  const NO_SUPPORT := Support(Missing, Missing, Missing, Missing, Missing)

  function CitedOf(review: F.ReviewRecord): Support {
    var s := F.CurrentSupport(review);
    if s.None? then NO_SUPPORT
    else Support(
      At(s.value.supported as real), KeyOf(s.value.supportLowerBound), KeyOf(s.value.relevanceMean),
      KeyOfCount(s.value.partialSupported), KeyOf(s.value.partialLowerBound))
  }

  /** The complete review's own counts, when it considered any criterion. */
  function NativeOf(review: F.ReviewRecord): Option<Native> {
    var complete := F.CompleteReview(review);
    if complete.None? || complete.value.evidenceFit.value.considered <= 0 then None
    else
      var fit := complete.value.evidenceFit.value;
      Some(Native(fit.supported as real, KeyOf(fit.supportLowerBound)))
  }

  function StandingOf(o: Opportunity): Standing {
    var rank := Q.ScreeningRank(o.screening);
    var view := A.EligibilityView(o.sourceEligibility, o.assessment);
    Standing(
      o.id,
      IndexOf(STATUS_ORDER, o.status) as real,
      KeyOf(if o.postedAt.Some? then o.postedAt else o.firstSeenAt),
      KeyOf(if o.salaryMax.Some? then o.salaryMax else o.salaryMin),
      KeyOf(o.humanRating),
      KeyOf(o.updatedAt),
      KeyOf(o.latestScore),
      rank.enabled, rank.conflictCount as real,
      KeyOf(rank.recommendationPercent), KeyOf(rank.evidenceCoveragePercent),
      view.eligibilityPriority, view.fitScore, view.readiness == A.Assessable,
      F.CompleteReview(o.review).Some? || F.CompleteUnavailable(o.review),
      NativeOf(o.review),
      CitedOf(o.review))
  }

  // -------------------------------------------------------------- comparators

  /** The numeric score counts only outside the complete-review tier. */
  function ScoreKey(s: Standing): Key {
    if s.completeTier then Missing else s.latestScore
  }

  function CompareRecommendation(l: Standing, r: Standing, direction: Direction): real {
    Or(Compare(l.recommendation, r.recommendation, direction),
       Compare(l.coverage, r.coverage, Desc))
  }

  function CompareSupport(x: Support, y: Support, direction: Direction): real {
    Or(Compare(x.supported, y.supported, direction),
    Or(Compare(x.lowerBound, y.lowerBound, direction),
    Or(Compare(x.relevance, y.relevance, direction),
    Or(Compare(x.partial, y.partial, direction),
       Compare(x.partialBound, y.partialBound, direction)))))
  }

  /** Fit is compared only between two assessable records. */
  function CompareEligibility(l: Standing, r: Standing): real {
    Or(l.priority - r.priority, if l.assessable && r.assessable then r.fitScore - l.fitScore else 0.0)
  }

  /** The evidence the best sort reads: native counts where there are some, then the cited relevance. */
  function BestSupport(s: Standing): Support {
    if s.native.Some? then s.cited.(supported := At(s.native.value.supported), lowerBound := s.native.value.lowerBound)
    else s.cited.(supported := Missing, lowerBound := Missing)
  }

  /** Evidence if a side has native counts, the legacy score if neither has. */
  function CompareEvidence(l: Standing, r: Standing): real {
    if l.native.Some? || r.native.Some? then CompareSupport(BestSupport(l), BestSupport(r), Desc)
    else Compare(ScoreKey(l), ScoreKey(r), Desc)
  }

  /** Without question screening: status, then eligibility, then evidence or legacy score. */
  function CompareLegacyBest(l: Standing, r: Standing): real {
    Or(l.statusRank - r.statusRank,
    Or(if l.completeTier || r.completeTier then l.priority - r.priority else CompareEligibility(l, r),
       CompareEvidence(l, r)))
  }

  function CompareScreenedBest(l: Standing, r: Standing): real {
    Or(l.statusRank - r.statusRank,
    Or(l.conflicts - r.conflicts,
       CompareRecommendation(l, r, Desc)))
  }

  function Primary(sort: SortField, direction: Direction, l: Standing, r: Standing): real {
    match sort
    case Newest => Compare(l.posted, r.posted, direction)
    case Eligibility => CompareEligibility(l, r)
    case Recommendation => CompareRecommendation(l, r, direction)
    case CitedSupport => CompareSupport(l.cited, r.cited, direction)
    case Score =>
      if l.screened || r.screened then CompareRecommendation(l, r, direction)
      else Compare(ScoreKey(l), ScoreKey(r), direction)
    case Salary => Compare(l.salary, r.salary, direction)
    case Rating => Compare(l.rating, r.rating, direction)
    case Best => if l.screened || r.screened then CompareScreenedBest(l, r) else CompareLegacyBest(l, r)
  }

  /** The string comparison of JavaScript: by code, prefixes first. */
  function StringSign(a: string, b: string): int {
    if a == b then 0
    else if a == "" then -1
    else if b == "" then 1
    else if a[0] == b[0] then StringSign(a[1..], b[1..])
    else if a[0] < b[0] then -1
    else 1
  }

  function CompareStandings(sort: SortField, direction: Direction, l: Standing, r: Standing): real {
    Or(Primary(sort, direction, l, r),
    Or(Compare(l.updated, r.updated, Desc),
       StringSign(l.id, r.id) as real))
  }

  function Comparator(sort: SortField, direction: Direction): S.Comparator<Standing> {
    (l, r) => CompareStandings(sort, direction, l, r)
  }

  function CompareOpportunities(sort: SortField, direction: Direction): S.Comparator<Opportunity> {
    S.Through(Comparator(sort, direction), StandingOf)
  }

  /** Sorts a copy of the records. */
  function SortOpportunities(records: seq<Opportunity>, sort: SortField, direction: Direction): seq<Opportunity> {
    S.Sort(CompareOpportunities(sort, direction), records)
  }
}

/** When the comparator orders a list of records, and that sorting then has one possible outcome. */
module OpportunityOrderTheorems {
  import opened Sequences
  import opened OpportunityOrder
  import opened Tournaments
  import A = AssessmentProjection
  import F = FitReview
  import Q = QuestionScreening
  import S = StableSort

  // ------------------------------------------------------ lexicographic keys

  function Sign(x: real): int {
    if x < 0.0 then -1 else if x > 0.0 then 1 else 0
  }

  function KeySign(a: Key, b: Key): int {
    if a == b then 0 else if a.Missing? then 1 else if b.Missing? || a.v < b.v then -1 else 1
  }

  /** The key that ascending comparison treats as `order` treats `k`. */
  function Enc(k: Key, order: Direction): Key {
    if k.Missing? || order == Asc then k else At(-k.v)
  }

  function LexSign(a: seq<Key>, b: seq<Key>): int
    requires |a| == |b|
  {
    if a == [] then 0
    else if KeySign(a[0], b[0]) != 0 then KeySign(a[0], b[0])
    else LexSign(a[1..], b[1..])
  }

  /** Keys first, ids last. */
  function RankSign(a: seq<Key>, b: seq<Key>, x: string, y: string): int
    requires |a| == |b|
  {
    if LexSign(a, b) != 0 then LexSign(a, b) else StringSign(x, y)
  }

  lemma {:induction false} LexAppend(a: seq<Key>, b: seq<Key>, c: seq<Key>, d: seq<Key>)
    requires |a| == |b| && |c| == |d|
    ensures LexSign(a + c, b + d) == if LexSign(a, b) != 0 then LexSign(a, b) else LexSign(c, d)
  {
    if a == [] {
      assert a + c == c && b + d == d;
    } else {
      assert (a + c)[1..] == a[1..] + c && (b + d)[1..] == b[1..] + d;
      LexAppend(a[1..], b[1..], c, d);
    }
  }

  lemma {:induction false} LexAntisymmetric(a: seq<Key>, b: seq<Key>)
    requires |a| == |b|
    ensures LexSign(b, a) == -LexSign(a, b)
    ensures LexSign(a, b) == 0 <==> a == b
    ensures -1 <= LexSign(a, b) <= 1
  {
    if a == [] {
    } else {
      LexAntisymmetric(a[1..], b[1..]);
      assert a == [a[0]] + a[1..] && b == [b[0]] + b[1..];
    }
  }

  lemma {:induction false} LexTransitive(a: seq<Key>, b: seq<Key>, c: seq<Key>)
    requires |a| == |b| == |c| && LexSign(a, b) < 0 && LexSign(b, c) < 0
    ensures LexSign(a, c) < 0
  {
    if KeySign(a[0], b[0]) == 0 && KeySign(b[0], c[0]) == 0 {
      LexTransitive(a[1..], b[1..], c[1..]);
    }
  }

  lemma {:induction false} StringAntisymmetric(a: string, b: string)
    ensures StringSign(b, a) == -StringSign(a, b)
    ensures StringSign(a, b) == 0 <==> a == b
    ensures -1 <= StringSign(a, b) <= 1
  {
    if a != b && a != "" && b != "" && a[0] == b[0] {
      StringAntisymmetric(a[1..], b[1..]);
      assert a == [a[0]] + a[1..] && b == [b[0]] + b[1..];
    }
  }

  lemma {:induction false} StringTransitive(a: string, b: string, c: string)
    requires StringSign(a, b) < 0 && StringSign(b, c) < 0
    ensures StringSign(a, c) < 0
  {
    if a != "" && a[0] == b[0] == c[0] {
      StringTransitive(a[1..], b[1..], c[1..]);
    }
    StringAntisymmetric(a, c);
    if a == c {
      StringAntisymmetric(a, b);
    }
  }

  type Keys = Standing -> seq<Key>

  ghost predicate Width(keys: Keys, n: nat) {
    forall o :: |keys(o)| == n
  }

  ghost predicate DistinctIds(d: set<Standing>) {
    forall x, y :: x in d && y in d && x.id == y.id ==> x == y
  }

  /** Records compared by their keys, then by id. */
  ghost function ByKeys(keys: Keys, n: nat): Before<Standing>
    requires Width(keys, n)
  {
    (x, y) => |keys(x)| == |keys(y)| && RankSign(keys(x), keys(y), x.id, y.id) < 0
  }

  lemma RankAntisymmetric(a: seq<Key>, b: seq<Key>, x: string, y: string)
    requires |a| == |b|
    ensures RankSign(b, a, y, x) == -RankSign(a, b, x, y)
    ensures RankSign(a, b, x, y) == 0 <==> a == b && x == y
  {
    LexAntisymmetric(a, b);
    StringAntisymmetric(x, y);
  }

  lemma RankTransitive(a: seq<Key>, b: seq<Key>, c: seq<Key>, x: string, y: string, z: string)
    requires |a| == |b| == |c| && RankSign(a, b, x, y) < 0 && RankSign(b, c, y, z) < 0
    ensures RankSign(a, c, x, z) < 0
  {
    LexAntisymmetric(a, b);
    LexAntisymmetric(b, c);
    if LexSign(a, b) < 0 && LexSign(b, c) < 0 {
      LexTransitive(a, b, c);
    }
    if LexSign(a, b) == 0 && LexSign(b, c) == 0 {
      StringTransitive(x, y, z);
    }
  }

  /** Comparing by keys, then by distinct ids, is a strict total order. */
  lemma ByKeysStrictTotal(keys: Keys, n: nat, d: set<Standing>)
    requires Width(keys, n) && DistinctIds(d)
    ensures StrictTotal(ByKeys(keys, n), d)
  {
    var b := ByKeys(keys, n);
    forall x, y | x in d && y in d ensures !(b(x, y) && b(y, x)) && (x != y ==> b(x, y) || b(y, x)) {
      RankAntisymmetric(keys(x), keys(y), x.id, y.id);
    }
    forall x, y, z | x in d && y in d && z in d && b(x, y) && b(y, z) ensures b(x, z) {
      RankTransitive(keys(x), keys(y), keys(z), x.id, y.id, z.id);
    }
  }

  // ---------------------------------------------------- the rule of each sort

  function Enc2(a: Key, x: Direction, b: Key, y: Direction): seq<Key> {
    [Enc(a, x), Enc(b, y)]
  }

  function SupportKeys(s: Support, d: Direction): seq<Key> {
    [Enc(s.supported, d), Enc(s.lowerBound, d), Enc(s.relevance, d), Enc(s.partial, d), Enc(s.partialBound, d)]
  }

  /** Evidence keys of the best sort: all native ones missing, and the score last, without native counts. */
  function EvidenceKeys(s: Standing): seq<Key> {
    if s.native.Some? then SupportKeys(BestSupport(s), Desc) + [Missing]
    else SupportKeys(NO_SUPPORT, Desc) + [Enc(ScoreKey(s), Desc)]
  }

  function Tie(s: Standing): seq<Key> {
    [Enc(s.updated, Desc)]
  }

  function RecommendationKeys(d: Direction): Keys {
    (s: Standing) => Enc2(s.recommendation, d, s.coverage, Desc) + Tie(s)
  }

  function PostedKeys(d: Direction): Keys {
    (s: Standing) => [Enc(s.posted, d)] + Tie(s)
  }

  function SalaryKeys(d: Direction): Keys {
    (s: Standing) => [Enc(s.salary, d)] + Tie(s)
  }

  function RatingKeys(d: Direction): Keys {
    (s: Standing) => [Enc(s.rating, d)] + Tie(s)
  }

  function ScoreKeys(d: Direction): Keys {
    (s: Standing) => [Enc(ScoreKey(s), d)] + Tie(s)
  }

  function CitedKeys(d: Direction): Keys {
    (s: Standing) => SupportKeys(s.cited, d) + Tie(s)
  }

  function FitKeys(): Keys {
    (s: Standing) => [At(s.priority), At(-s.fitScore)] + Tie(s)
  }

  function PriorityKeys(): Keys {
    (s: Standing) => [At(s.priority)] + Tie(s)
  }

  function LegacyFitKeys(): Keys {
    (s: Standing) => [At(s.statusRank), At(s.priority), At(-s.fitScore)] + EvidenceKeys(s) + Tie(s)
  }

  function LegacyKeys(): Keys {
    (s: Standing) => [At(s.statusRank), At(s.priority)] + EvidenceKeys(s) + Tie(s)
  }

  function ScreenedBestKeys(): Keys {
    (s: Standing) => [At(s.statusRank), At(s.conflicts)] + Enc2(s.recommendation, Desc, s.coverage, Desc) + Tie(s)
  }

  // ------------------------------------------ the comparator follows its rule

  /** The comparator's result says what comparing the key lists says. */
  ghost predicate Matches(c: real, a: seq<Key>, b: seq<Key>) {
    |a| == |b| && Sign(c) == LexSign(a, b)
  }

  lemma CompareMatches(l: Key, r: Key, order: Direction)
    ensures Matches(Compare(l, r, order), [Enc(l, order)], [Enc(r, order)])
  {
    assert LexSign([Enc(l, order)], [Enc(r, order)]) == KeySign(Enc(l, order), Enc(r, order));
  }

  lemma DifferenceMatches(x: real, y: real)
    ensures Matches(x - y, [At(x)], [At(y)])
  {
    assert LexSign([At(x)], [At(y)]) == KeySign(At(x), At(y));
  }

  lemma OrMatches(c: real, a: seq<Key>, b: seq<Key>, d: real, e: seq<Key>, f: seq<Key>)
    requires Matches(c, a, b) && Matches(d, e, f)
    ensures Matches(Or(c, d), a + e, b + f)
  {
    LexAppend(a, b, e, f);
  }

  lemma SupportMatches(x: Support, y: Support, d: Direction)
    ensures Matches(CompareSupport(x, y, d), SupportKeys(x, d), SupportKeys(y, d))
  {
    CompareMatches(x.supported, y.supported, d);
    CompareMatches(x.lowerBound, y.lowerBound, d);
    CompareMatches(x.relevance, y.relevance, d);
    CompareMatches(x.partial, y.partial, d);
    CompareMatches(x.partialBound, y.partialBound, d);
    var c4 := Compare(x.partial, y.partial, d);
    var c5 := Compare(x.partialBound, y.partialBound, d);
    var c3 := Compare(x.relevance, y.relevance, d);
    var c2 := Compare(x.lowerBound, y.lowerBound, d);
    OrMatches(c4, [Enc(x.partial, d)], [Enc(y.partial, d)], c5, [Enc(x.partialBound, d)], [Enc(y.partialBound, d)]);
    OrMatches(c3, [Enc(x.relevance, d)], [Enc(y.relevance, d)], Or(c4, c5),
      [Enc(x.partial, d)] + [Enc(x.partialBound, d)], [Enc(y.partial, d)] + [Enc(y.partialBound, d)]);
    var a3 := [Enc(x.relevance, d)] + ([Enc(x.partial, d)] + [Enc(x.partialBound, d)]);
    var b3 := [Enc(y.relevance, d)] + ([Enc(y.partial, d)] + [Enc(y.partialBound, d)]);
    OrMatches(c2, [Enc(x.lowerBound, d)], [Enc(y.lowerBound, d)], Or(c3, Or(c4, c5)), a3, b3);
    OrMatches(Compare(x.supported, y.supported, d), [Enc(x.supported, d)], [Enc(y.supported, d)],
      Or(c2, Or(c3, Or(c4, c5))), [Enc(x.lowerBound, d)] + a3, [Enc(y.lowerBound, d)] + b3);
    assert SupportKeys(x, d) == [Enc(x.supported, d)] + ([Enc(x.lowerBound, d)] + a3);
    assert SupportKeys(y, d) == [Enc(y.supported, d)] + ([Enc(y.lowerBound, d)] + b3);
  }

  lemma RecommendationMatches(l: Standing, r: Standing, d: Direction)
    ensures Matches(CompareRecommendation(l, r, d),
      Enc2(l.recommendation, d, l.coverage, Desc), Enc2(r.recommendation, d, r.coverage, Desc))
  {
    CompareMatches(l.recommendation, r.recommendation, d);
    CompareMatches(l.coverage, r.coverage, Desc);
    OrMatches(
      Compare(l.recommendation, r.recommendation, d), [Enc(l.recommendation, d)], [Enc(r.recommendation, d)],
      Compare(l.coverage, r.coverage, Desc), [Enc(l.coverage, Desc)], [Enc(r.coverage, Desc)]);
    assert Enc2(l.recommendation, d, l.coverage, Desc) == [Enc(l.recommendation, d)] + [Enc(l.coverage, Desc)];
    assert Enc2(r.recommendation, d, r.coverage, Desc) == [Enc(r.recommendation, d)] + [Enc(r.coverage, Desc)];
  }

  /** Native evidence decides between records that have it; it beats any record without; scores come last. */
  lemma EvidenceMatches(l: Standing, r: Standing)
    ensures Matches(CompareEvidence(l, r), EvidenceKeys(l), EvidenceKeys(r))
  {
    if l.native.Some? || r.native.Some? {
      var x, y := BestSupport(l), BestSupport(r);
      SupportMatches(x, y, Desc);
      if l.native.Some? && r.native.Some? {
        LexAppend(SupportKeys(x, Desc), SupportKeys(y, Desc), [Missing], [Missing]);
      }
    } else {
      CompareMatches(ScoreKey(l), ScoreKey(r), Desc);
      var none := SupportKeys(NO_SUPPORT, Desc);
      LexAntisymmetric(none, none);
      LexAppend(none, none, [Enc(ScoreKey(l), Desc)], [Enc(ScoreKey(r), Desc)]);
    }
  }

  lemma TieMatches(sort: SortField, direction: Direction, l: Standing, r: Standing, a: seq<Key>, b: seq<Key>)
    requires Matches(Primary(sort, direction, l, r), a, b)
    ensures |a + Tie(l)| == |b + Tie(r)|
    ensures Sign(CompareStandings(sort, direction, l, r)) == RankSign(a + Tie(l), b + Tie(r), l.id, r.id)
  {
    CompareMatches(l.updated, r.updated, Desc);
    StringAntisymmetric(l.id, r.id);
    LexAppend(a, b, Tie(l), Tie(r));
  }

  // ------------------------------------------------------------ special pairs

  predicate IsAssessable(s: Standing) { s.assessable }
  predicate IsUnscreened(s: Standing) { !s.screened }
  predicate IsFitComparable(s: Standing) { s.assessable && !s.completeTier }

  ghost function LegacyBest(): Before<Standing> {
    Mixed(IsFitComparable, ByKeys(LegacyFitKeys(), 10), ByKeys(LegacyKeys(), 9))
  }

  /** The rule each sort follows: an order by keys, or a mixture that depends on the pair. */
  ghost function Rule(sort: SortField, d: Direction): Before<Standing> {
    match sort
    case Newest => ByKeys(PostedKeys(d), 2)
    case Salary => ByKeys(SalaryKeys(d), 2)
    case Rating => ByKeys(RatingKeys(d), 2)
    case Recommendation => ByKeys(RecommendationKeys(d), 3)
    case CitedSupport => ByKeys(CitedKeys(d), 6)
    case Eligibility => Mixed(IsAssessable, ByKeys(FitKeys(), 3), ByKeys(PriorityKeys(), 2))
    case Score => Mixed(IsUnscreened, ByKeys(ScoreKeys(d), 2), ByKeys(RecommendationKeys(d), 3))
    case Best => Mixed(IsUnscreened, LegacyBest(), ByKeys(ScreenedBestKeys(), 5))
  }

  /** No record stands between a special pair that the two orders of a mixed sort disagree on. */
  ghost predicate Clear(sort: SortField, d: Direction, records: set<Standing>) {
    match sort
    case Eligibility => !Straddled(IsAssessable, ByKeys(FitKeys(), 3), ByKeys(PriorityKeys(), 2), records)
    case Score =>
      !Straddled(IsUnscreened, ByKeys(ScoreKeys(d), 2), ByKeys(RecommendationKeys(d), 3), records)
    case Best =>
      && !Straddled(IsUnscreened, LegacyBest(), ByKeys(ScreenedBestKeys(), 5), records)
      && !Straddled(IsFitComparable, ByKeys(LegacyFitKeys(), 10), ByKeys(LegacyKeys(), 9),
                    Specials(IsUnscreened, records))
    case _ => true
  }

  function BeforeIn(sort: SortField, d: Direction): Before<Standing> {
    Strictly(Comparator(sort, d))
  }

  lemma KeysMatch(
    sort: SortField, d: Direction, l: Standing, r: Standing, keys: Keys, n: nat, a: seq<Key>, b: seq<Key>)
    requires Width(keys, n)
    requires Matches(Primary(sort, d, l, r), a, b)
    requires keys(l) == a + Tie(l) && keys(r) == b + Tie(r)
    ensures CompareStandings(sort, d, l, r) < 0.0 <==> ByKeys(keys, n)(l, r)
    ensures CompareStandings(sort, d, l, r) > 0.0 <==> ByKeys(keys, n)(r, l)
  {
    TieMatches(sort, d, l, r, a, b);
    RankAntisymmetric(keys(l), keys(r), l.id, r.id);
  }

  lemma EligibilityMatches(l: Standing, r: Standing)
    ensures l.assessable && r.assessable ==>
      Matches(CompareEligibility(l, r), [At(l.priority), At(-l.fitScore)], [At(r.priority), At(-r.fitScore)])
    ensures !(l.assessable && r.assessable) ==>
      Matches(CompareEligibility(l, r), [At(l.priority)], [At(r.priority)])
  {
    DifferenceMatches(l.priority, r.priority);
    DifferenceMatches(-l.fitScore, -r.fitScore);
    OrMatches(l.priority - r.priority, [At(l.priority)], [At(r.priority)],
      r.fitScore - l.fitScore, [At(-l.fitScore)], [At(-r.fitScore)]);
    assert [At(l.priority), At(-l.fitScore)] == [At(l.priority)] + [At(-l.fitScore)];
    assert [At(r.priority), At(-r.fitScore)] == [At(r.priority)] + [At(-r.fitScore)];
  }

  /** Status first, then what the comparison goes on with. */
  lemma StatusMatches(l: Standing, r: Standing, order: real, a: seq<Key>, b: seq<Key>)
    requires Matches(order, a, b)
    ensures Matches(Or(l.statusRank - r.statusRank, Or(order, CompareEvidence(l, r))),
                    [At(l.statusRank)] + a + EvidenceKeys(l), [At(r.statusRank)] + b + EvidenceKeys(r))
  {
    hide CompareEvidence;
    hide EvidenceKeys;
    hide Matches;
    EvidenceMatches(l, r);
    DifferenceMatches(l.statusRank, r.statusRank);
    OrMatches(order, a, b, CompareEvidence(l, r), EvidenceKeys(l), EvidenceKeys(r));
    OrMatches(l.statusRank - r.statusRank, [At(l.statusRank)], [At(r.statusRank)],
      Or(order, CompareEvidence(l, r)), a + EvidenceKeys(l), b + EvidenceKeys(r));
    assert [At(l.statusRank)] + (a + EvidenceKeys(l)) == [At(l.statusRank)] + a + EvidenceKeys(l);
    assert [At(r.statusRank)] + (b + EvidenceKeys(r)) == [At(r.statusRank)] + b + EvidenceKeys(r);
  }

  lemma LegacyFitMatches(l: Standing, r: Standing)
    requires IsFitComparable(l) && IsFitComparable(r)
    ensures Matches(CompareLegacyBest(l, r),
      [At(l.statusRank), At(l.priority), At(-l.fitScore)] + EvidenceKeys(l),
      [At(r.statusRank), At(r.priority), At(-r.fitScore)] + EvidenceKeys(r))
  {
    hide CompareEvidence;
    hide EvidenceKeys;
    hide CompareEligibility;
    hide Matches;
    EligibilityMatches(l, r);
    StatusMatches(l, r, CompareEligibility(l, r),
      [At(l.priority), At(-l.fitScore)], [At(r.priority), At(-r.fitScore)]);
    var a, b := [At(l.priority), At(-l.fitScore)], [At(r.priority), At(-r.fitScore)];
    assert [At(l.statusRank), At(l.priority), At(-l.fitScore)] == [At(l.statusRank)] + a;
    assert [At(r.statusRank), At(r.priority), At(-r.fitScore)] == [At(r.statusRank)] + b;
  }

  lemma LegacyPlainMatches(l: Standing, r: Standing)
    requires !(IsFitComparable(l) && IsFitComparable(r))
    ensures Matches(CompareLegacyBest(l, r),
      [At(l.statusRank), At(l.priority)] + EvidenceKeys(l), [At(r.statusRank), At(r.priority)] + EvidenceKeys(r))
  {
    hide CompareEvidence;
    hide EvidenceKeys;
    hide CompareEligibility;
    hide Matches;
    DifferenceMatches(l.priority, r.priority);
    EligibilityMatches(l, r);
    var order := if l.completeTier || r.completeTier then l.priority - r.priority else CompareEligibility(l, r);
    StatusMatches(l, r, order, [At(l.priority)], [At(r.priority)]);
    assert [At(l.statusRank), At(l.priority)] == [At(l.statusRank)] + [At(l.priority)];
    assert [At(r.statusRank), At(r.priority)] == [At(r.statusRank)] + [At(r.priority)];
  }

  lemma ScreenedMatches(l: Standing, r: Standing)
    ensures Matches(CompareScreenedBest(l, r),
      [At(l.statusRank), At(l.conflicts)] + Enc2(l.recommendation, Desc, l.coverage, Desc),
      [At(r.statusRank), At(r.conflicts)] + Enc2(r.recommendation, Desc, r.coverage, Desc))
  {
    var a, b := Enc2(l.recommendation, Desc, l.coverage, Desc), Enc2(r.recommendation, Desc, r.coverage, Desc);
    RecommendationMatches(l, r, Desc);
    DifferenceMatches(l.statusRank, r.statusRank);
    DifferenceMatches(l.conflicts, r.conflicts);
    OrMatches(l.conflicts - r.conflicts, [At(l.conflicts)], [At(r.conflicts)], CompareRecommendation(l, r, Desc), a, b);
    OrMatches(l.statusRank - r.statusRank, [At(l.statusRank)], [At(r.statusRank)],
      Or(l.conflicts - r.conflicts, CompareRecommendation(l, r, Desc)), [At(l.conflicts)] + a, [At(r.conflicts)] + b);
    assert [At(l.statusRank), At(l.conflicts)] + a == [At(l.statusRank)] + ([At(l.conflicts)] + a);
    assert [At(r.statusRank), At(r.conflicts)] + b == [At(r.statusRank)] + ([At(r.conflicts)] + b);
  }

  /** The comparator is negative exactly when its rule puts the left record first, positive for the right. */
  lemma ComparatorFollowsRule(sort: SortField, d: Direction, l: Standing, r: Standing)
    ensures CompareStandings(sort, d, l, r) < 0.0 <==> Rule(sort, d)(l, r)
    ensures CompareStandings(sort, d, l, r) > 0.0 <==> Rule(sort, d)(r, l)
  {
    match sort {
      case Eligibility => EligibilityRule(d, l, r);
      case Score =>
        if IsUnscreened(l) && IsUnscreened(r) {
          CompareMatches(ScoreKey(l), ScoreKey(r), d);
          KeysMatch(sort, d, l, r, ScoreKeys(d), 2, [Enc(ScoreKey(l), d)], [Enc(ScoreKey(r), d)]);
        } else {
          RecommendationRule(sort, d, l, r);
        }
      case Best =>
        if IsUnscreened(l) && IsUnscreened(r) {
          LegacyRule(d, l, r);
        } else {
          ScreenedRule(d, l, r);
        }
      case _ => PlainRule(sort, d, l, r);
    }
  }

  lemma PlainRule(sort: SortField, d: Direction, l: Standing, r: Standing)
    requires sort in {Newest, Salary, Rating, Recommendation, CitedSupport}
    ensures CompareStandings(sort, d, l, r) < 0.0 <==> Rule(sort, d)(l, r)
    ensures CompareStandings(sort, d, l, r) > 0.0 <==> Rule(sort, d)(r, l)
  {
    match sort {
      case Newest =>
        CompareMatches(l.posted, r.posted, d);
        KeysMatch(sort, d, l, r, PostedKeys(d), 2, [Enc(l.posted, d)], [Enc(r.posted, d)]);
      case Salary =>
        CompareMatches(l.salary, r.salary, d);
        KeysMatch(sort, d, l, r, SalaryKeys(d), 2, [Enc(l.salary, d)], [Enc(r.salary, d)]);
      case Rating =>
        CompareMatches(l.rating, r.rating, d);
        KeysMatch(sort, d, l, r, RatingKeys(d), 2, [Enc(l.rating, d)], [Enc(r.rating, d)]);
      case Recommendation => RecommendationRule(sort, d, l, r);
      case CitedSupport =>
        SupportMatches(l.cited, r.cited, d);
        KeysMatch(sort, d, l, r, CitedKeys(d), 6, SupportKeys(l.cited, d), SupportKeys(r.cited, d));
    }
  }

  lemma ScreenedRule(d: Direction, l: Standing, r: Standing)
    requires !IsUnscreened(l) || !IsUnscreened(r)
    ensures CompareStandings(Best, d, l, r) < 0.0 <==> ByKeys(ScreenedBestKeys(), 5)(l, r)
    ensures CompareStandings(Best, d, l, r) > 0.0 <==> ByKeys(ScreenedBestKeys(), 5)(r, l)
  {
    ScreenedMatches(l, r);
    KeysMatch(Best, d, l, r, ScreenedBestKeys(), 5,
      [At(l.statusRank), At(l.conflicts)] + Enc2(l.recommendation, Desc, l.coverage, Desc),
      [At(r.statusRank), At(r.conflicts)] + Enc2(r.recommendation, Desc, r.coverage, Desc));
  }

  lemma RecommendationRule(sort: SortField, d: Direction, l: Standing, r: Standing)
    requires sort == Recommendation || (sort == Score && (l.screened || r.screened))
    ensures CompareStandings(sort, d, l, r) < 0.0 <==> ByKeys(RecommendationKeys(d), 3)(l, r)
    ensures CompareStandings(sort, d, l, r) > 0.0 <==> ByKeys(RecommendationKeys(d), 3)(r, l)
  {
    RecommendationMatches(l, r, d);
    KeysMatch(sort, d, l, r, RecommendationKeys(d), 3,
      Enc2(l.recommendation, d, l.coverage, Desc), Enc2(r.recommendation, d, r.coverage, Desc));
  }

  lemma EligibilityRule(d: Direction, l: Standing, r: Standing)
    ensures CompareStandings(Eligibility, d, l, r) < 0.0 <==> Rule(Eligibility, d)(l, r)
    ensures CompareStandings(Eligibility, d, l, r) > 0.0 <==> Rule(Eligibility, d)(r, l)
  {
    EligibilityMatches(l, r);
    if IsAssessable(l) && IsAssessable(r) {
      KeysMatch(Eligibility, d, l, r, FitKeys(), 3,
        [At(l.priority), At(-l.fitScore)], [At(r.priority), At(-r.fitScore)]);
    } else {
      KeysMatch(Eligibility, d, l, r, PriorityKeys(), 2, [At(l.priority)], [At(r.priority)]);
    }
  }

  lemma LegacyRule(d: Direction, l: Standing, r: Standing)
    requires IsUnscreened(l) && IsUnscreened(r)
    ensures CompareStandings(Best, d, l, r) < 0.0 <==> LegacyBest()(l, r)
    ensures CompareStandings(Best, d, l, r) > 0.0 <==> LegacyBest()(r, l)
  {
    if IsFitComparable(l) && IsFitComparable(r) {
      LegacyFitMatches(l, r);
      KeysMatch(Best, d, l, r, LegacyFitKeys(), 10,
        [At(l.statusRank), At(l.priority), At(-l.fitScore)] + EvidenceKeys(l),
        [At(r.statusRank), At(r.priority), At(-r.fitScore)] + EvidenceKeys(r));
    } else {
      LegacyPlainMatches(l, r);
      KeysMatch(Best, d, l, r, LegacyKeys(), 9,
        [At(l.statusRank), At(l.priority)] + EvidenceKeys(l),
        [At(r.statusRank), At(r.priority)] + EvidenceKeys(r));
    }
  }

  // ---------------------------------------------------------- the main results

  lemma SameTournament(b: Before<Standing>, c: Before<Standing>, d: set<Standing>)
    requires forall x, y :: b(x, y) == c(x, y)
    ensures Tournament(b, d) <==> Tournament(c, d)
    ensures Transitive(b, d) <==> Transitive(c, d)
  {
  }

  lemma LegacyBestIff(d: set<Standing>)
    requires DistinctIds(d)
    ensures Tournament(LegacyBest(), d)
    ensures Transitive(LegacyBest(), d) <==>
            !Straddled(IsFitComparable, ByKeys(LegacyFitKeys(), 10), ByKeys(LegacyKeys(), 9), d)
  {
    ByKeysStrictTotal(LegacyFitKeys(), 10, d);
    ByKeysStrictTotal(LegacyKeys(), 9, d);
    MixedTournament(IsFitComparable, ByKeys(LegacyFitKeys(), 10), ByKeys(LegacyKeys(), 9), d);
    MixedTransitiveIff(IsFitComparable, ByKeys(LegacyFitKeys(), 10), ByKeys(LegacyKeys(), 9), d);
  }

  /** Two orders by keys, mixed by a test of the pair. */
  lemma MixedKeysIff(special: Standing -> bool, inner: Keys, n: nat, outer: Keys, m: nat, d: set<Standing>)
    requires Width(inner, n) && Width(outer, m) && DistinctIds(d)
    ensures Tournament(Mixed(special, ByKeys(inner, n), ByKeys(outer, m)), d)
    ensures Transitive(Mixed(special, ByKeys(inner, n), ByKeys(outer, m)), d) <==>
            !Straddled(special, ByKeys(inner, n), ByKeys(outer, m), d)
  {
    hide ByKeys;
    hide Straddled;
    ByKeysStrictTotal(inner, n, d);
    ByKeysStrictTotal(outer, m, d);
    MixedTournament(special, ByKeys(inner, n), ByKeys(outer, m), d);
    MixedTransitiveIff(special, ByKeys(inner, n), ByKeys(outer, m), d);
  }

  lemma BestIff(d: set<Standing>)
    requires DistinctIds(d)
    ensures Tournament(Mixed(IsUnscreened, LegacyBest(), ByKeys(ScreenedBestKeys(), 5)), d)
    ensures Transitive(Mixed(IsUnscreened, LegacyBest(), ByKeys(ScreenedBestKeys(), 5)), d) <==>
            && !Straddled(IsUnscreened, LegacyBest(), ByKeys(ScreenedBestKeys(), 5), d)
            && !Straddled(IsFitComparable, ByKeys(LegacyFitKeys(), 10), ByKeys(LegacyKeys(), 9),
                          Specials(IsUnscreened, d))
  {
    hide LegacyBest;
    hide Straddled;
    LegacyBestIff(Specials(IsUnscreened, d));
    ByKeysStrictTotal(ScreenedBestKeys(), 5, d);
    MixedTournament(IsUnscreened, LegacyBest(), ByKeys(ScreenedBestKeys(), 5), d);
    MixedTransitiveIff(IsUnscreened, LegacyBest(), ByKeys(ScreenedBestKeys(), 5), d);
  }

  lemma RuleIff(sort: SortField, dir: Direction, d: set<Standing>)
    requires DistinctIds(d)
    ensures Tournament(Rule(sort, dir), d)
    ensures Transitive(Rule(sort, dir), d) <==> Clear(sort, dir, d)
  {
    hide ByKeys;
    hide LegacyBest;
    hide Straddled;
    hide Transitive;
    hide Tournament;
    hide DistinctIds;
    match sort {
      case Newest => ByKeysStrictTotal(PostedKeys(dir), 2, d);
      case Salary => ByKeysStrictTotal(SalaryKeys(dir), 2, d);
      case Rating => ByKeysStrictTotal(RatingKeys(dir), 2, d);
      case Recommendation => ByKeysStrictTotal(RecommendationKeys(dir), 3, d);
      case CitedSupport => ByKeysStrictTotal(CitedKeys(dir), 6, d);
      case Eligibility => MixedKeysIff(IsAssessable, FitKeys(), 3, PriorityKeys(), 2, d);
      case Score => MixedKeysIff(IsUnscreened, ScoreKeys(dir), 2, RecommendationKeys(dir), 3, d);
      case Best => BestIff(d);
    }
  }

  /**
   For every sort and direction, the comparator puts exactly one of two records with different ids first,
   and it is a strict total order exactly when no record straddles a disagreement of the sort's two rules.
   Sorts with one rule are always orders.
   */
  lemma StrictTotalIffClear(sort: SortField, dir: Direction, d: set<Standing>)
    requires DistinctIds(d)
    ensures Tournament(BeforeIn(sort, dir), d)
    ensures StrictTotal(BeforeIn(sort, dir), d) <==> Clear(sort, dir, d)
  {
    forall x, y ensures BeforeIn(sort, dir)(x, y) == Rule(sort, dir)(x, y) {
      ComparatorFollowsRule(sort, dir, x, y);
    }
    SameTournament(BeforeIn(sort, dir), Rule(sort, dir), d);
    RuleIff(sort, dir, d);
  }

  // ------------------------------------------------------------ record lists

  function Standings(records: seq<Opportunity>): set<Standing> {
    set o | o in Elements(records) :: StandingOf(o)
  }

  ghost predicate DistinctRecords(records: seq<Opportunity>) {
    Distinct(Map(records, (o: Opportunity) => o.id))
  }

  function RecordBefore(sort: SortField, dir: Direction): Before<Opportunity> {
    Strictly(CompareOpportunities(sort, dir))
  }

  lemma StandingKeepsId(o: Opportunity)
    ensures StandingOf(o).id == o.id
  {
  }

  lemma {:induction false} StandingsAreMapped(records: seq<Opportunity>, view: Opportunity -> Standing, s: Standing)
    ensures s in (set o | o in Elements(records) :: view(o)) <==> s in Map(records, view)
  {
    var views := Map(records, view);
    if s in views {
      var i :| 0 <= i < |views| && views[i] == s;
      assert records[i] in Elements(records) && view(records[i]) == s;
    }
    if o :| o in Elements(records) && view(o) == s {
      var i :| 0 <= i < |records| && records[i] == o;
      assert views[i] == s;
    }
  }

  lemma DistinctStandings(records: seq<Opportunity>)
    requires DistinctRecords(records)
    ensures Distinct(Map(records, StandingOf))
    ensures DistinctIds(Standings(records))
  {
    var id, standingId := (o: Opportunity) => o.id, (s: Standing) => s.id;
    forall o | o in records ensures standingId(StandingOf(o)) == id(o) {
      StandingKeepsId(o);
    }
    DistinctView(records, StandingOf, id, standingId);
    forall s, t | s in Standings(records) && t in Standings(records) && s.id == t.id ensures s == t {
      StandingsAreMapped(records, StandingOf, s);
      StandingsAreMapped(records, StandingOf, t);
    }
  }

  lemma ComparatorAntisymmetric(sort: SortField, dir: Direction)
    ensures SignAntisymmetric(Comparator(sort, dir))
  {
    forall l, r ensures CompareStandings(sort, dir, l, r) < 0.0 <==> CompareStandings(sort, dir, r, l) > 0.0 {
      ComparatorFollowsRule(sort, dir, l, r);
      ComparatorFollowsRule(sort, dir, r, l);
    }
  }

  /**
   A list of records with distinct ids has a fully ordered arrangement exactly when it is clear for the sort;
   that arrangement is then the only one, and it is what sortOpportunities returns.
   */
  lemma SortedExactlyWhenClear(records: seq<Opportunity>, sort: SortField, dir: Direction)
    requires DistinctRecords(records)
    ensures HasArrangement(RecordBefore(sort, dir), records) <==> Clear(sort, dir, Standings(records))
    ensures Clear(sort, dir, Standings(records)) ==>
              OnlyArrangement(RecordBefore(sort, dir), records, SortOpportunities(records, sort, dir))
  {
    DistinctStandings(records);
    StrictTotalIffClear(sort, dir, Standings(records));
    ComparatorAntisymmetric(sort, dir);
    ViewArrangementIff(Comparator(sort, dir), StandingOf, records, Standings(records));
  }

  /** The order in which records arrive does not show in a clear list's sorted order. */
  lemma ArrivalOrderIrrelevant(records: seq<Opportunity>, other: seq<Opportunity>, sort: SortField, dir: Direction)
    requires DistinctRecords(records) && multiset(records) == multiset(other)
    requires Clear(sort, dir, Standings(records))
    ensures SortOpportunities(records, sort, dir) == SortOpportunities(other, sort, dir)
  {
    SortedExactlyWhenClear(records, sort, dir);
    MapPermutation(records, other, (o: Opportunity) => o.id);
    DistinctPermutation(Map(records, (o: Opportunity) => o.id), Map(other, (o: Opportunity) => o.id));
    assert Standings(records) == Standings(other) by {
      forall o ensures o in records <==> o in other {
        S.SameElements(records, other, o);
      }
      assert Elements(records) == Elements(other);
    }
    SortedExactlyWhenClear(other, sort, dir);
  }

  // -------------------------------------------------- when a list is clear

  /** Conditions that a caller can read off the records. */
  ghost predicate Uniform(sort: SortField, records: set<Standing>) {
    match sort
    case Score => SameScreening(records)
    case Best =>
      || (forall s :: s in records ==> s.screened)
      || ((forall s :: s in records ==> !s.screened)
          && forall s, t :: s in records && t in records && s.statusRank == t.statusRank && s.priority == t.priority
               ==> IsFitComparable(s) == IsFitComparable(t))
    case Eligibility =>
      forall s, t :: s in records && t in records && s.priority == t.priority ==> s.assessable == t.assessable
    case _ => true
  }

  ghost predicate SameScreening(records: set<Standing>) {
    forall s, t :: s in records && t in records ==> s.screened == t.screened
  }

  lemma ByKeysHead(keys: Keys, n: nat, x: Standing, y: Standing)
    requires Width(keys, n) && n > 0 && ByKeys(keys, n)(x, y)
    ensures KeySign(keys(x)[0], keys(y)[0]) <= 0
    ensures n > 1 && KeySign(keys(x)[0], keys(y)[0]) == 0 ==> KeySign(keys(x)[1], keys(y)[1]) <= 0
  {
    var a, b := keys(x), keys(y);
    assert a[1..] != [] ==> a[1..][0] == a[1];
    assert b[1..] != [] ==> b[1..][0] == b[1];
    assert LexSign(a, b) <= 0;
    if n > 1 && KeySign(a[0], b[0]) == 0 {
      assert LexSign(a[1..], b[1..]) == LexSign(a, b);
    }
  }

  /** Records around a cycle of priorities share one priority. */
  lemma EligibilityStraddle(x: Standing, y: Standing, z: Standing)
    requires Straddle(IsAssessable, ByKeys(FitKeys(), 3), ByKeys(PriorityKeys(), 2), x, y, z)
    ensures x.priority == y.priority == z.priority
  {
    ByKeysHead(FitKeys(), 3, x, y);
    ByKeysHead(PriorityKeys(), 2, y, z);
    ByKeysHead(PriorityKeys(), 2, z, x);
  }

  lemma LegacyStraddle(x: Standing, y: Standing, z: Standing)
    requires Straddle(IsFitComparable, ByKeys(LegacyFitKeys(), 10), ByKeys(LegacyKeys(), 9), x, y, z)
    ensures x.statusRank == y.statusRank == z.statusRank && x.priority == y.priority == z.priority
  {
    ByKeysHead(LegacyFitKeys(), 10, x, y);
    ByKeysHead(LegacyKeys(), 9, y, z);
    ByKeysHead(LegacyKeys(), 9, z, x);
  }

  /** Lists that are uniform in what a mixed sort branches on are clear, in both directions. */
  lemma UniformIsClear(sort: SortField, dir: Direction, d: set<Standing>)
    requires Uniform(sort, d)
    ensures Clear(sort, dir, d)
  {
    if sort == Eligibility {
      forall x, y, z | x in d && y in d && z in d
        ensures !Straddle(IsAssessable, ByKeys(FitKeys(), 3), ByKeys(PriorityKeys(), 2), x, y, z)
      {
        if Straddle(IsAssessable, ByKeys(FitKeys(), 3), ByKeys(PriorityKeys(), 2), x, y, z) {
          EligibilityStraddle(x, y, z);
        }
      }
    }
    if sort == Best {
      var e := Specials(IsUnscreened, d);
      forall x, y, z | x in e && y in e && z in e
        ensures !Straddle(IsFitComparable, ByKeys(LegacyFitKeys(), 10), ByKeys(LegacyKeys(), 9), x, y, z)
      {
        if Straddle(IsFitComparable, ByKeys(LegacyFitKeys(), 10), ByKeys(LegacyKeys(), 9), x, y, z) {
          LegacyStraddle(x, y, z);
        }
      }
    }
  }

  // ------------------------------------------------------------ missing last

  /** The sorts whose primary key can be missing; status and eligibility priority never are. */
  predicate HasFirstKey(sort: SortField) {
    sort != Best && sort != Eligibility
  }

  function FirstKey(sort: SortField, s: Standing): Key
    requires HasFirstKey(sort)
  {
    match sort
    case Newest => s.posted
    case Salary => s.salary
    case Rating => s.rating
    case Recommendation => s.recommendation
    case CitedSupport => s.cited.supported
    case Score => if s.screened then s.recommendation else ScoreKey(s)
  }

  /** The one chain of keys such a sort goes through; a score sort's depends on question screening. */
  function ChainKeys(sort: SortField, d: Direction, screened: bool): Keys
    requires HasFirstKey(sort)
  {
    match sort
    case Newest => PostedKeys(d)
    case Salary => SalaryKeys(d)
    case Rating => RatingKeys(d)
    case Recommendation => RecommendationKeys(d)
    case CitedSupport => CitedKeys(d)
    case Score => if screened then RecommendationKeys(d) else ScoreKeys(d)
  }

  /** Two records a sort compares by one chain of keys. */
  predicate Chained(sort: SortField, l: Standing, r: Standing) {
    HasFirstKey(sort) && (sort == Score ==> l.screened == r.screened)
  }

  lemma ChainWidth(sort: SortField, d: Direction, screened: bool, l: Standing, r: Standing)
    requires HasFirstKey(sort)
    ensures |ChainKeys(sort, d, screened)(l)| == |ChainKeys(sort, d, screened)(r)|
  {
  }

  lemma ChainRule(sort: SortField, d: Direction, l: Standing, r: Standing)
    requires Chained(sort, l, r)
    ensures var keys := ChainKeys(sort, d, l.screened);
            && |keys(l)| == |keys(r)|
            && (CompareStandings(sort, d, l, r) <= 0.0 <==> RankSign(keys(l), keys(r), l.id, r.id) <= 0)
  {
    hide CompareStandings;
    hide RankSign;
    ChainWidth(sort, d, l.screened, l, r);
    ComparatorFollowsRule(sort, d, l, r);
    var keys := ChainKeys(sort, d, l.screened);
    RankAntisymmetric(keys(l), keys(r), l.id, r.id);
    ChainIsRule(sort, d, r, l);
    SameChain(sort, d, l, r);
  }

  lemma ChainIsRule(sort: SortField, d: Direction, l: Standing, r: Standing)
    requires Chained(sort, l, r)
    ensures var keys := ChainKeys(sort, d, l.screened);
            && |keys(l)| == |keys(r)|
            && (Rule(sort, d)(l, r) <==> RankSign(keys(l), keys(r), l.id, r.id) < 0)
  {
    hide RankSign;
    ChainWidth(sort, d, l.screened, l, r);
    match sort
    case Newest =>
    case Salary =>
    case Rating =>
    case Recommendation =>
    case CitedSupport =>
    case Score =>
      assert IsUnscreened(l) == IsUnscreened(r) == !l.screened;
      assert Rule(sort, d)(l, r) ==
             if l.screened then ByKeys(RecommendationKeys(d), 3)(l, r) else ByKeys(ScoreKeys(d), 2)(l, r);
  }

  lemma RankWeaklyTransitive(a: seq<Key>, b: seq<Key>, c: seq<Key>, x: string, y: string, z: string)
    requires |a| == |b| == |c| && RankSign(a, b, x, y) <= 0 && RankSign(b, c, y, z) <= 0
    ensures RankSign(a, c, x, z) <= 0
  {
    hide RankSign;
    RankAntisymmetric(a, b, x, y);
    RankAntisymmetric(b, c, y, z);
    if RankSign(a, b, x, y) < 0 && RankSign(b, c, y, z) < 0 {
      RankTransitive(a, b, c, x, y, z);
    }
  }

  lemma ChainTransitive(sort: SortField, d: Direction, x: Standing, y: Standing, z: Standing)
    requires Chained(sort, x, y) && Chained(sort, y, z)
    requires CompareStandings(sort, d, x, y) <= 0.0 && CompareStandings(sort, d, y, z) <= 0.0
    ensures CompareStandings(sort, d, x, z) <= 0.0
  {
    hide CompareStandings;
    hide RankSign;
    hide FirstKey;
    ChainRule(sort, d, x, y);
    ChainRule(sort, d, y, z);
    ChainRule(sort, d, x, z);
    SameChain(sort, d, x, y);
    var keys := ChainKeys(sort, d, x.screened);
    RankWeaklyTransitive(keys(x), keys(y), keys(z), x.id, y.id, z.id);
  }

  lemma SameChain(sort: SortField, d: Direction, l: Standing, r: Standing)
    requires Chained(sort, l, r)
    ensures ChainKeys(sort, d, l.screened) == ChainKeys(sort, d, r.screened)
  {
  }

  /** The first of two compared records has the key if the second has, and its key is not further down. */
  lemma FirstKeyDecides(sort: SortField, d: Direction, l: Standing, r: Standing)
    requires Chained(sort, l, r) && CompareStandings(sort, d, l, r) <= 0.0 && FirstKey(sort, r).At?
    ensures FirstKey(sort, l).At?
    ensures if d == Asc then FirstKey(sort, l).v <= FirstKey(sort, r).v else FirstKey(sort, l).v >= FirstKey(sort, r).v
  {
  }

  lemma ChainedRecords(records: seq<Opportunity>, sort: SortField, x: Opportunity, y: Opportunity)
    requires HasFirstKey(sort) && (sort == Score ==> SameScreening(Standings(records)))
    requires x in records && y in records
    ensures Chained(sort, StandingOf(x), StandingOf(y))
  {
    hide StandingOf;
    assert StandingOf(x) in Standings(records) && StandingOf(y) in Standings(records);
  }

  lemma ChainConsistent(records: seq<Opportunity>, sort: SortField, dir: Direction)
    requires HasFirstKey(sort) && (sort == Score ==> SameScreening(Standings(records)))
    ensures S.Consistent(CompareOpportunities(sort, dir), Elements(records))
  {
    hide CompareStandings;
    hide StandingOf;
    hide SameScreening;
    var cmp := CompareOpportunities(sort, dir);
    ComparatorAntisymmetric(sort, dir);
    assert forall x, y :: cmp(x, y) == Comparator(sort, dir)(StandingOf(x), StandingOf(y));
    forall x, y, z | x in records && y in records && z in records && S.Leq(cmp, x, y) && S.Leq(cmp, y, z)
      ensures S.Leq(cmp, x, z)
    {
      ChainedRecords(records, sort, x, y);
      ChainedRecords(records, sort, y, z);
      ChainTransitive(sort, dir, StandingOf(x), StandingOf(y), StandingOf(z));
    }
  }

  /**
   Whatever the direction, the sorted list has all records with the primary key in front of those without, and
   their keys in that direction. A score sort needs records that agree on question screening.
   */
  lemma MissingKeysLast(records: seq<Opportunity>, sort: SortField, dir: Direction)
    requires HasFirstKey(sort) && (sort == Score ==> SameScreening(Standings(records)))
    ensures var out := SortOpportunities(records, sort, dir);
            forall i, j :: 0 <= i < j < |out| && FirstKey(sort, StandingOf(out[j])).At? ==>
              var k, l := FirstKey(sort, StandingOf(out[i])), FirstKey(sort, StandingOf(out[j]));
              k.At? && if dir == Asc then k.v <= l.v else k.v >= l.v
  {
    hide CompareStandings;
    hide StandingOf;
    hide SameScreening;
    hide FirstKey;
    var out, cmp := SortOpportunities(records, sort, dir), CompareOpportunities(sort, dir);
    ChainConsistent(records, sort, dir);
    S.SortSorts(cmp, records, Elements(records));
    forall i, j | 0 <= i < j < |out| && FirstKey(sort, StandingOf(out[j])).At?
      ensures var k, l := FirstKey(sort, StandingOf(out[i])), FirstKey(sort, StandingOf(out[j]));
              k.At? && if dir == Asc then k.v <= l.v else k.v >= l.v
    {
      assert S.Leq(cmp, out[i], out[j]) && out[i] in records && out[j] in records;
      ChainedRecords(records, sort, out[i], out[j]);
      FirstKeyDecides(sort, dir, StandingOf(out[i]), StandingOf(out[j]));
    }
  }

  // ------------------------------------------------------------ mixed lists

  /** Three records each of which the comparator puts in front of the next. */
  ghost predicate Circle(sort: SortField, dir: Direction, x: Opportunity, y: Opportunity, z: Opportunity) {
    var cmp := CompareOpportunities(sort, dir);
    cmp(x, y) < 0.0 && cmp(y, z) < 0.0 && cmp(z, x) < 0.0
  }

  lemma DistinctThree(x: Opportunity, y: Opportunity, z: Opportunity)
    requires x.id != y.id && y.id != z.id && z.id != x.id
    ensures DistinctRecords([x, y, z])
  {
    var ids := Map([x, y, z], (o: Opportunity) => o.id);
    assert ids == [x.id, y.id, z.id];
  }

  lemma CircleIsNotTransitive(sort: SortField, dir: Direction, x: Standing, y: Standing, z: Standing, d: set<Standing>)
    requires x in d && y in d && z in d
    requires CompareStandings(sort, dir, x, y) < 0.0 && CompareStandings(sort, dir, y, z) < 0.0
    requires CompareStandings(sort, dir, z, x) < 0.0
    ensures !StrictTotal(BeforeIn(sort, dir), d)
  {
    hide CompareStandings;
    var b := BeforeIn(sort, dir);
    assert b(x, y) && b(y, z) && b(z, x);
    assert Transitive(b, d) ==> b(x, z);
    assert Tournament(b, d) ==> !(b(x, z) && b(z, x));
  }

  /** A list of records in a circle has no order at all, so what sorting it returns depends on how they arrive. */
  lemma CircleIsNotClear(sort: SortField, dir: Direction, x: Opportunity, y: Opportunity, z: Opportunity)
    requires Circle(sort, dir, x, y, z) && DistinctRecords([x, y, z])
    ensures !Clear(sort, dir, Standings([x, y, z]))
    ensures !HasArrangement(RecordBefore(sort, dir), [x, y, z])
  {
    hide CompareStandings;
    hide StandingOf;
    hide Clear;
    hide HasArrangement;
    hide StrictTotal;
    var d := Standings([x, y, z]);
    assert StandingOf(x) in d && StandingOf(y) in d && StandingOf(z) in d;
    DistinctStandings([x, y, z]);
    CircleIsNotTransitive(sort, dir, StandingOf(x), StandingOf(y), StandingOf(z), d);
    StrictTotalIffClear(sort, dir, d);
    SortedExactlyWhenClear([x, y, z], sort, dir);
  }

  /** A record without reviews and dates but its last update, with question screening on or off. */
  function BareRecord(
    id: string, updated: real, score: Option<real>, screened: bool, assessment: Option<A.Assessment>): Opportunity
  {
    Opportunity(
      id, "found", None, None, Some(updated), None, None, None, score,
      F.ReviewRecord(None, false, None), Q.ScreeningRecord(None, false, Some(screened)), None, assessment)
  }

  /** A current assessment of unknown eligibility over one requirement, with its fit score. */
  function FitAssessment(fit: real): Option<A.Assessment> {
    Some(A.Assessment(
      true, Some(A.UnknownBucket), Some(A.Ranking(fit, A.Priority(A.UnknownBucket))), Some(A.Assessable),
      Some(A.Coverage(false, false, false, 1))))
  }

  lemma BareStanding(id: string, updated: real, score: Option<real>, screened: bool, fit: Option<real>)
    ensures var assessment := if fit.Some? then FitAssessment(fit.value) else None;
            var s := StandingOf(BareRecord(id, updated, score, screened, assessment));
            && s.id == id && s.updated == At(updated) && s.latestScore == KeyOf(score)
            && s.screened == screened && s.conflicts == 0.0 && s.recommendation.Missing? && s.coverage.Missing?
            && s.statusRank == IndexOf(STATUS_ORDER, "found") as real
            && s.priority == 2.0 && s.fitScore == (if fit.Some? then fit.value else 0.0) && s.assessable == fit.Some?
            && !s.completeTier && s.native.None? && s.cited == NO_SUPPORT
  {
    hide IndexOf;
  }

  lemma ScoreCircleTurns(dir: Direction, x: Standing, y: Standing, z: Standing)
    requires forall s :: s in [x, y, z] ==> !s.completeTier && s.recommendation.Missing? && s.coverage.Missing?
    requires !x.screened && !y.screened && z.screened
    requires x.latestScore == At(if dir == Asc then 1.0 else 2.0)
    requires y.latestScore == At(if dir == Asc then 2.0 else 1.0)
    requires x.updated == At(1.0) && y.updated == At(3.0) && z.updated == At(2.0)
    ensures CompareStandings(Score, dir, x, y) < 0.0 && CompareStandings(Score, dir, y, z) < 0.0
    ensures CompareStandings(Score, dir, z, x) < 0.0
  {
    hide StringSign;
    assert x in [x, y, z] && y in [x, y, z] && z in [x, y, z];
  }

  /** Two unscreened records ordered by score, and a screened one between them by date. */
  lemma ScoreCircle(dir: Direction)
    ensures exists x, y, z :: Circle(Score, dir, x, y, z) && DistinctRecords([x, y, z])
                              && !Clear(Score, dir, Standings([x, y, z]))
  {
    hide StandingOf;
    hide Clear;
    hide CompareStandings;
    hide IndexOf;
    var high, low := (if dir == Asc then 1.0 else 2.0), (if dir == Asc then 2.0 else 1.0);
    var x, y, z := BareRecord("x", 1.0, Some(high), false, None), BareRecord("y", 3.0, Some(low), false, None),
                   BareRecord("z", 2.0, None, true, None);
    BareStanding("x", 1.0, Some(high), false, None);
    BareStanding("y", 3.0, Some(low), false, None);
    BareStanding("z", 2.0, None, true, None);
    DistinctThree(x, y, z);
    ScoreCircleTurns(dir, StandingOf(x), StandingOf(y), StandingOf(z));
    CircleIsNotClear(Score, dir, x, y, z);
  }

  /** Two assessable records ordered by fit, and one that is not assessable between them by date. */
  lemma FitCircle(sort: SortField, dir: Direction)
    requires sort == Eligibility || sort == Best
    ensures exists x, y, z :: Circle(sort, dir, x, y, z) && DistinctRecords([x, y, z])
                              && !Clear(sort, dir, Standings([x, y, z]))
  {
    hide StandingOf;
    hide Clear;
    hide CompareStandings;
    hide IndexOf;
    var x, y, z := BareRecord("x", 1.0, None, false, FitAssessment(2.0)),
                   BareRecord("y", 3.0, None, false, FitAssessment(1.0)), BareRecord("z", 2.0, None, false, None);
    BareStanding("x", 1.0, None, false, Some(2.0));
    BareStanding("y", 3.0, None, false, Some(1.0));
    BareStanding("z", 2.0, None, false, None);
    DistinctThree(x, y, z);
    FitCircleTurns(sort, dir, StandingOf(x), StandingOf(y), StandingOf(z));
    CircleIsNotClear(sort, dir, x, y, z);
  }

  lemma FitCircleTurns(sort: SortField, dir: Direction, x: Standing, y: Standing, z: Standing)
    requires sort == Eligibility || sort == Best
    requires forall s :: s in [x, y, z] ==>
               && !s.screened && !s.completeTier && s.native.None? && s.latestScore.Missing?
               && s.statusRank == x.statusRank && s.priority == 2.0 && s.cited == NO_SUPPORT
    requires x.assessable && y.assessable && !z.assessable && x.fitScore == 2.0 && y.fitScore == 1.0
    requires x.updated == At(1.0) && y.updated == At(3.0) && z.updated == At(2.0)
    ensures CompareStandings(sort, dir, x, y) < 0.0 && CompareStandings(sort, dir, y, z) < 0.0
    ensures CompareStandings(sort, dir, z, x) < 0.0
  {
    hide StringSign;
    assert x in [x, y, z] && y in [x, y, z] && z in [x, y, z];
  }

  /** Lists with records of both kinds can run in a circle for every sort that treats some pairs specially. */
  lemma MixedListsCanCycle(sort: SortField, dir: Direction)
    ensures (exists x, y, z :: Circle(sort, dir, x, y, z) && DistinctRecords([x, y, z])
                               && !Clear(sort, dir, Standings([x, y, z])))
            <==> sort in {Score, Eligibility, Best}
  {
    hide Circle;
    hide StandingOf;
    if sort == Score {
      ScoreCircle(dir);
    } else if sort == Eligibility || sort == Best {
      FitCircle(sort, dir);
    }
  }
}
