/**
 The sorted list, described column by column from the records' own fields: what each sort looks at, in which
 direction, and what decides after it.
 */
module OpportunityColumns {
  import opened Sequences
  import opened OpportunityOrder
  import opened OpportunityOrderTheorems
  import opened Tournaments
  import A = AssessmentProjection
  import F = FitReview
  import Q = QuestionScreening
  import S = StableSort

  /** What a sort looks at next: a value that may be missing, and the direction it is sorted in. */
  datatype Column = Column(value: Option<real>, order: Direction)

  /** Missing values last, whatever the direction. */
  predicate Placed(order: Direction, a: Option<real>, b: Option<real>) {
    b.Some? ==> a.Some? && if order == Asc then a.value <= b.value else a.value >= b.value
  }

  /** `a` does not stand behind `b`: the first column they differ in decides, and then the ids. */
  predicate InOrder(a: seq<Column>, b: seq<Column>, x: string, y: string)
    requires |a| == |b|
  {
    if a == [] then StringSign(x, y) <= 0
    else if a[0].value == b[0].value then InOrder(a[1..], b[1..], x, y)
    else Placed(a[0].order, a[0].value, b[0].value)
  }

  // ----------------------------------------------------------- what is looked at

  function OfCount(n: Option<int>): Option<real> {
    if n.Some? then Some(n.value as real) else None
  }

  function Posted(o: Opportunity): Option<real> {
    if o.postedAt.Some? then o.postedAt else o.firstSeenAt
  }

  function Pay(o: Opportunity): Option<real> {
    if o.salaryMax.Some? then o.salaryMax else o.salaryMin
  }

  /** The score of a record outside the complete-review tier. */
  function ShownScore(o: Opportunity): Option<real> {
    if F.CompleteReview(o.review).Some? || F.CompleteUnavailable(o.review) then None else o.latestScore
  }

  function ScreeningColumns(o: Opportunity, d: Direction): seq<Column> {
    var rank := Q.ScreeningRank(o.screening);
    [Column(rank.recommendationPercent, d), Column(rank.evidenceCoveragePercent, Desc)]
  }

  function SupportColumns(o: Opportunity, d: Direction): seq<Column> {
    var s := F.CurrentSupport(o.review);
    if s.None? then
      [Column(None, d), Column(None, d), Column(None, d), Column(None, d), Column(None, d)]
    else
      [Column(Some(s.value.supported as real), d), Column(s.value.supportLowerBound, d),
       Column(s.value.relevanceMean, d), Column(OfCount(s.value.partialSupported), d),
       Column(s.value.partialLowerBound, d)]
  }

  function StatusColumn(o: Opportunity): Column {
    Column(Some(IndexOf(STATUS_ORDER, o.status) as real), Asc)
  }

  /** A record's complete review that considered some criterion. */
  function Considering(o: Opportunity): Option<F.EvidenceFit> {
    var review := F.CompleteReview(o.review);
    if review.Some? && review.value.evidenceFit.value.considered > 0 then review.value.evidenceFit else None
  }

  /** Without question screening: the complete review's counts, then what the cited support adds to them. */
  function EvidenceColumns(o: Opportunity): seq<Column> {
    var fit, s := Considering(o), F.CurrentSupport(o.review);
    [Column(if fit.Some? then Some(fit.value.supported as real) else None, Desc),
     Column(if fit.Some? then fit.value.supportLowerBound else None, Desc),
     Column(if s.Some? then s.value.relevanceMean else None, Desc),
     Column(if s.Some? then OfCount(s.value.partialSupported) else None, Desc),
     Column(if s.Some? then s.value.partialLowerBound else None, Desc)]
  }

  predicate Enabled(o: Opportunity) {
    Q.ScreeningRank(o.screening).enabled
  }

  predicate Assessable(o: Opportunity) {
    A.EligibilityView(o.sourceEligibility, o.assessment).readiness == A.Assessable
  }

  predicate InCompleteTier(o: Opportunity) {
    F.CompleteReview(o.review).Some? || F.CompleteUnavailable(o.review)
  }

  function EligibilityColumns(o: Opportunity, fit: bool): seq<Column> {
    var view := A.EligibilityView(o.sourceEligibility, o.assessment);
    [Column(Some(view.eligibilityPriority), Asc)] + if fit then [Column(Some(view.fitScore), Desc)] else []
  }

  /** The columns a sort compares two records by; the best, score and eligibility sorts look at both first. */
  function Columns(sort: SortField, d: Direction, o: Opportunity, x: Opportunity, y: Opportunity): seq<Column> {
    match sort
    case Newest => [Column(Posted(o), d)]
    case Salary => [Column(Pay(o), d)]
    case Rating => [Column(o.humanRating, d)]
    case Recommendation => ScreeningColumns(o, d)
    case CitedSupport => SupportColumns(o, d)
    case Score => if Enabled(x) || Enabled(y) then ScreeningColumns(o, d) else [Column(ShownScore(o), d)]
    case Eligibility => EligibilityColumns(o, Assessable(x) && Assessable(y))
    case Best =>
      if Enabled(x) || Enabled(y) then
        [StatusColumn(o), Column(Some(Q.ScreeningRank(o.screening).conflictCount as real), Asc)]
        + ScreeningColumns(o, Desc)
      else
        var fit := Assessable(x) && Assessable(y) && !InCompleteTier(x) && !InCompleteTier(y);
        [StatusColumn(o)] + EligibilityColumns(o, fit)
        + if Considering(x).Some? || Considering(y).Some? then EvidenceColumns(o) else [Column(ShownScore(o), Desc)]
  }

  function AllColumns(sort: SortField, d: Direction, o: Opportunity, x: Opportunity, y: Opportunity): seq<Column> {
    Columns(sort, d, o, x, y) + [Column(o.updatedAt, Desc)]
  }

  lemma ColumnsAlike(sort: SortField, d: Direction, x: Opportunity, y: Opportunity)
    ensures |AllColumns(sort, d, x, x, y)| == |AllColumns(sort, d, y, x, y)|
  {
  }

  /** By the sort's columns, `x` does not stand behind `y`. */
  predicate Follows(sort: SortField, d: Direction, x: Opportunity, y: Opportunity) {
    ColumnsAlike(sort, d, x, y);
    InOrder(AllColumns(sort, d, x, x, y), AllColumns(sort, d, y, x, y), x.id, y.id)
  }

  // --------------------------------------------------- the comparator reads columns

  /** The comparison so far, `c`, says what columns `a` and `b` say, in front of anything that follows. */
  ghost predicate Says(c: real, a: seq<Column>, b: seq<Column>) {
    && |a| == |b|
    && forall rest: real, u: seq<Column>, v: seq<Column>, x: string, y: string ::
         |u| == |v| && (rest <= 0.0 <==> InOrder(u, v, x, y)) ==>
           (Or(c, rest) <= 0.0 <==> InOrder(a + u, b + v, x, y))
  }

  lemma OneSays(a: Option<real>, b: Option<real>, d: Direction)
    ensures Says(Compare(KeyOf(a), KeyOf(b), d), [Column(a, d)], [Column(b, d)])
  {
    var c := Compare(KeyOf(a), KeyOf(b), d);
    forall rest: real, u: seq<Column>, v: seq<Column>, x: string, y: string |
      |u| == |v| && (rest <= 0.0 <==> InOrder(u, v, x, y))
      ensures Or(c, rest) <= 0.0 <==> InOrder([Column(a, d)] + u, [Column(b, d)] + v, x, y)
    {
      assert ([Column(a, d)] + u)[1..] == u && ([Column(b, d)] + v)[1..] == v;
    }
  }

  lemma BothSay(c: real, a: seq<Column>, b: seq<Column>, e: real, a': seq<Column>, b': seq<Column>)
    requires Says(c, a, b) && Says(e, a', b')
    ensures Says(Or(c, e), a + a', b + b')
  {
    forall rest: real, u: seq<Column>, v: seq<Column>, x: string, y: string |
      |u| == |v| && (rest <= 0.0 <==> InOrder(u, v, x, y))
      ensures Or(Or(c, e), rest) <= 0.0 <==> InOrder(a + a' + u, b + b' + v, x, y)
    {
      assert Or(e, rest) <= 0.0 <==> InOrder(a' + u, b' + v, x, y);
      assert Or(Or(c, e), rest) == Or(c, Or(e, rest));
      assert a + a' + u == a + (a' + u) && b + b' + v == b + (b' + v);
    }
  }

  lemma NothingSays()
    ensures Says(0.0, [], [])
  {
    forall u: seq<Column>, v: seq<Column> ensures [] + u == u && [] + v == v {
    }
  }

  /** A difference of values that are always there is a column, ascending; reversed, descending. */
  lemma DifferenceSays(x: real, y: real)
    ensures Says(x - y, [Column(Some(x), Asc)], [Column(Some(y), Asc)])
    ensures Says(y - x, [Column(Some(x), Desc)], [Column(Some(y), Desc)])
  {
    OneSays(Some(x), Some(y), Asc);
    OneSays(Some(x), Some(y), Desc);
  }

  lemma ScreeningSays(x: Opportunity, y: Opportunity, d: Direction)
    ensures Says(CompareRecommendation(StandingOf(x), StandingOf(y), d), ScreeningColumns(x, d), ScreeningColumns(y, d))
  {
    hide Says;
    hide Compare;
    var p, q := Q.ScreeningRank(x.screening), Q.ScreeningRank(y.screening);
    OneSays(p.recommendationPercent, q.recommendationPercent, d);
    OneSays(p.evidenceCoveragePercent, q.evidenceCoveragePercent, Desc);
    BothSay(
      Compare(KeyOf(p.recommendationPercent), KeyOf(q.recommendationPercent), d),
      [Column(p.recommendationPercent, d)], [Column(q.recommendationPercent, d)],
      Compare(KeyOf(p.evidenceCoveragePercent), KeyOf(q.evidenceCoveragePercent), Desc),
      [Column(p.evidenceCoveragePercent, Desc)], [Column(q.evidenceCoveragePercent, Desc)]);
    assert ScreeningColumns(x, d) == [Column(p.recommendationPercent, d)] + [Column(p.evidenceCoveragePercent, Desc)];
    assert ScreeningColumns(y, d) == [Column(q.recommendationPercent, d)] + [Column(q.evidenceCoveragePercent, Desc)];
  }

  /** The five values of a support, as keys and as columns. */
  datatype Five = Five(a: Option<real>, b: Option<real>, c: Option<real>, d: Option<real>, e: Option<real>)

  function FiveKeys(f: Five): Support {
    Support(KeyOf(f.a), KeyOf(f.b), KeyOf(f.c), KeyOf(f.d), KeyOf(f.e))
  }

  function FiveColumns(f: Five, d: Direction): seq<Column> {
    [Column(f.a, d), Column(f.b, d), Column(f.c, d), Column(f.d, d), Column(f.e, d)]
  }

  lemma FiveSay(f: Five, g: Five, d: Direction)
    ensures Says(CompareSupport(FiveKeys(f), FiveKeys(g), d), FiveColumns(f, d), FiveColumns(g, d))
  {
    hide Says;
    hide Compare;
    OneSays(f.a, g.a, d);
    OneSays(f.b, g.b, d);
    OneSays(f.c, g.c, d);
    OneSays(f.d, g.d, d);
    OneSays(f.e, g.e, d);
    var last, fourth := Compare(KeyOf(f.e), KeyOf(g.e), d), Compare(KeyOf(f.d), KeyOf(g.d), d);
    var third, second := Compare(KeyOf(f.c), KeyOf(g.c), d), Compare(KeyOf(f.b), KeyOf(g.b), d);
    BothSay(fourth, [Column(f.d, d)], [Column(g.d, d)], last, [Column(f.e, d)], [Column(g.e, d)]);
    BothSay(third, [Column(f.c, d)], [Column(g.c, d)], Or(fourth, last),
      [Column(f.d, d)] + [Column(f.e, d)], [Column(g.d, d)] + [Column(g.e, d)]);
    BothSay(second, [Column(f.b, d)], [Column(g.b, d)], Or(third, Or(fourth, last)),
      [Column(f.c, d)] + ([Column(f.d, d)] + [Column(f.e, d)]),
      [Column(g.c, d)] + ([Column(g.d, d)] + [Column(g.e, d)]));
    BothSay(Compare(KeyOf(f.a), KeyOf(g.a), d), [Column(f.a, d)], [Column(g.a, d)],
      Or(second, Or(third, Or(fourth, last))),
      [Column(f.b, d)] + ([Column(f.c, d)] + ([Column(f.d, d)] + [Column(f.e, d)])),
      [Column(g.b, d)] + ([Column(g.c, d)] + ([Column(g.d, d)] + [Column(g.e, d)])));
    assert FiveColumns(f, d) ==
           [Column(f.a, d)] + ([Column(f.b, d)] + ([Column(f.c, d)] + ([Column(f.d, d)] + [Column(f.e, d)])));
    assert FiveColumns(g, d) ==
           [Column(g.a, d)] + ([Column(g.b, d)] + ([Column(g.c, d)] + ([Column(g.d, d)] + [Column(g.e, d)])));
  }

  function SupportFive(o: Opportunity): Five {
    var s := F.CurrentSupport(o.review);
    if s.None? then Five(None, None, None, None, None)
    else Five(Some(s.value.supported as real), s.value.supportLowerBound, s.value.relevanceMean,
              OfCount(s.value.partialSupported), s.value.partialLowerBound)
  }

  function EvidenceFive(o: Opportunity): Five {
    var fit, s := Considering(o), SupportFive(o);
    s.(a := if fit.Some? then Some(fit.value.supported as real) else None,
       b := if fit.Some? then fit.value.supportLowerBound else None)
  }

  lemma FivesAreColumns(o: Opportunity, d: Direction)
    ensures SupportColumns(o, d) == FiveColumns(SupportFive(o), d)
    ensures EvidenceColumns(o) == FiveColumns(EvidenceFive(o), Desc)
    ensures StandingOf(o).cited == FiveKeys(SupportFive(o))
    ensures BestSupport(StandingOf(o)) == FiveKeys(EvidenceFive(o))
    ensures StandingOf(o).native.Some? <==> Considering(o).Some?
    ensures ScoreKey(StandingOf(o)) == KeyOf(ShownScore(o))
  {
    hide F.CurrentSupport;
    hide F.CompleteReview;
    hide F.CompleteUnavailable;
    hide A.EligibilityView;
    hide Q.ScreeningRank;
    hide IndexOf;
    hide BestSupport;
    BestIsFive(o);
    ConsideringIsNative(o);
    assert StandingOf(o).native == NativeOf(o.review);
  }

  lemma ConsideringIsNative(o: Opportunity)
    ensures Considering(o).Some? <==> NativeOf(o.review).Some?
  {
  }

  lemma BestIsFive(o: Opportunity)
    ensures BestSupport(StandingOf(o)) == FiveKeys(EvidenceFive(o))
  {
    hide F.CurrentSupport;
    hide F.CompleteReview;
    hide F.CompleteUnavailable;
    hide A.EligibilityView;
    hide Q.ScreeningRank;
    hide IndexOf;
    ConsideringIsNative(o);
    var s := StandingOf(o);
    assert s.native == NativeOf(o.review) && s.cited == FiveKeys(SupportFive(o));
    var fit := Considering(o);
    if fit.Some? {
      assert s.native == Some(Native(fit.value.supported as real, KeyOf(fit.value.supportLowerBound)));
    } else {
      assert s.native.None?;
    }
  }

  /** What a standing takes from the eligibility view. */
  lemma ViewIsStanding(o: Opportunity)
    ensures var v := A.EligibilityView(o.sourceEligibility, o.assessment);
            && StandingOf(o).priority == v.eligibilityPriority
            && StandingOf(o).fitScore == v.fitScore
            && (StandingOf(o).assessable <==> Assessable(o))
  {
    hide A.EligibilityView;
    hide Q.ScreeningRank;
    hide F.CurrentSupport;
    hide F.CompleteReview;
    hide F.CompleteUnavailable;
    hide IndexOf;
  }

  lemma PrioritySays(x: Opportunity, y: Opportunity)
    ensures Says(StandingOf(x).priority - StandingOf(y).priority,
                 EligibilityColumns(x, false), EligibilityColumns(y, false))
  {
    hide Says;
    hide StandingOf;
    hide A.EligibilityView;
    var v := A.EligibilityView(x.sourceEligibility, x.assessment);
    var w := A.EligibilityView(y.sourceEligibility, y.assessment);
    ViewIsStanding(x);
    ViewIsStanding(y);
    DifferenceSays(v.eligibilityPriority, w.eligibilityPriority);
    assert EligibilityColumns(x, false) == [Column(Some(v.eligibilityPriority), Asc)];
    assert EligibilityColumns(y, false) == [Column(Some(w.eligibilityPriority), Asc)];
  }

  lemma EligibilitySays(x: Opportunity, y: Opportunity)
    ensures var fit := Assessable(x) && Assessable(y);
            Says(CompareEligibility(StandingOf(x), StandingOf(y)),
                 EligibilityColumns(x, fit), EligibilityColumns(y, fit))
  {
    hide Says;
    hide StandingOf;
    hide A.EligibilityView;
    var v := A.EligibilityView(x.sourceEligibility, x.assessment);
    var w := A.EligibilityView(y.sourceEligibility, y.assessment);
    var p, q := StandingOf(x), StandingOf(y);
    var a, b := EligibilityColumns(x, false), EligibilityColumns(y, false);
    PrioritySays(x, y);
    ViewIsStanding(x);
    ViewIsStanding(y);
    if Assessable(x) && Assessable(y) {
      DifferenceSays(v.fitScore, w.fitScore);
      BothSay(p.priority - q.priority, a, b, w.fitScore - v.fitScore,
        [Column(Some(v.fitScore), Desc)], [Column(Some(w.fitScore), Desc)]);
      assert EligibilityColumns(x, true) == a + [Column(Some(v.fitScore), Desc)];
      assert EligibilityColumns(y, true) == b + [Column(Some(w.fitScore), Desc)];
      assert CompareEligibility(p, q) == Or(p.priority - q.priority, w.fitScore - v.fitScore);
    } else {
      NothingSays();
      BothSay(p.priority - q.priority, a, b, 0.0, [], []);
      assert a + [] == a && b + [] == b;
      assert CompareEligibility(p, q) == Or(p.priority - q.priority, 0.0);
    }
  }

  lemma EvidenceSays(x: Opportunity, y: Opportunity)
    ensures var native := Considering(x).Some? || Considering(y).Some?;
            Says(CompareEvidence(StandingOf(x), StandingOf(y)),
                 if native then EvidenceColumns(x) else [Column(ShownScore(x), Desc)],
                 if native then EvidenceColumns(y) else [Column(ShownScore(y), Desc)])
  {
    hide Says;
    hide StandingOf;
    hide Considering;
    hide SupportColumns;
    hide EvidenceColumns;
    hide BestSupport;
    hide ScoreKey;
    hide Compare;
    hide CompareSupport;
    FivesAreColumns(x, Desc);
    FivesAreColumns(y, Desc);
    FiveSay(EvidenceFive(x), EvidenceFive(y), Desc);
    OneSays(ShownScore(x), ShownScore(y), Desc);
  }

  lemma StatusSays(x: Opportunity, y: Opportunity)
    ensures Says(StandingOf(x).statusRank - StandingOf(y).statusRank, [StatusColumn(x)], [StatusColumn(y)])
    ensures StandingOf(x).completeTier <==> InCompleteTier(x)
    ensures StandingOf(x).screened <==> Enabled(x)
    ensures StandingOf(x).conflicts == Q.ScreeningRank(x.screening).conflictCount as real
  {
    hide Says;
    hide IndexOf;
    hide A.EligibilityView;
    hide Q.ScreeningRank;
    hide F.CurrentSupport;
    hide F.CompleteReview;
    hide F.CompleteUnavailable;
    DifferenceSays(StandingOf(x).statusRank, StandingOf(y).statusRank);
  }

  /** Three comparisons, one behind the other. */
  lemma ThreeSay(
    c: real, a: seq<Column>, a': seq<Column>, d: real, b: seq<Column>, b': seq<Column>,
    e: real, u: seq<Column>, u': seq<Column>)
    requires Says(c, a, a') && Says(d, b, b') && Says(e, u, u')
    ensures Says(Or(c, Or(d, e)), a + b + u, a' + b' + u')
  {
    hide Says;
    BothSay(d, b, b', e, u, u');
    BothSay(c, a, a', Or(d, e), b + u, b' + u');
    assert a + b + u == a + (b + u) && a' + b' + u' == a' + (b' + u');
  }

  lemma LegacySays(x: Opportunity, y: Opportunity)
    requires !Enabled(x) && !Enabled(y)
    ensures Says(CompareLegacyBest(StandingOf(x), StandingOf(y)),
                 Columns(Best, Desc, x, x, y), Columns(Best, Desc, y, x, y))
  {
    hide Says;
    hide Or;
    hide StandingOf;
    hide StatusColumn;
    hide Enabled;
    hide Assessable;
    hide InCompleteTier;
    hide CompareEvidence;
    hide CompareEligibility;
    hide EligibilityColumns;
    hide EvidenceColumns;
    hide Considering;
    hide ShownScore;
    var p, q := StandingOf(x), StandingOf(y);
    var tier := InCompleteTier(x) || InCompleteTier(y);
    var fit := Assessable(x) && Assessable(y) && !tier;
    var native := Considering(x).Some? || Considering(y).Some?;
    var order := if tier then p.priority - q.priority else CompareEligibility(p, q);
    PrioritySays(x, y);
    EligibilitySays(x, y);
    EvidenceSays(x, y);
    StatusSays(x, y);
    StatusSays(y, x);
    ThreeSay(p.statusRank - q.statusRank, [StatusColumn(x)], [StatusColumn(y)],
      order, EligibilityColumns(x, fit), EligibilityColumns(y, fit), CompareEvidence(p, q),
      if native then EvidenceColumns(x) else [Column(ShownScore(x), Desc)],
      if native then EvidenceColumns(y) else [Column(ShownScore(y), Desc)]);
  }

  lemma ScreenedSays(x: Opportunity, y: Opportunity)
    requires Enabled(x) || Enabled(y)
    ensures Says(CompareScreenedBest(StandingOf(x), StandingOf(y)),
                 Columns(Best, Desc, x, x, y), Columns(Best, Desc, y, x, y))
  {
    hide Says;
    hide Or;
    hide StandingOf;
    hide StatusColumn;
    hide Enabled;
    hide CompareRecommendation;
    hide ScreeningColumns;
    hide Q.ScreeningRank;
    var p, q := StandingOf(x), StandingOf(y);
    var a, b := Column(Some(p.conflicts), Asc), Column(Some(q.conflicts), Asc);
    ScreeningSays(x, y, Desc);
    StatusSays(x, y);
    StatusSays(y, x);
    DifferenceSays(p.conflicts, q.conflicts);
    ThreeSay(p.statusRank - q.statusRank, [StatusColumn(x)], [StatusColumn(y)],
      p.conflicts - q.conflicts, [a], [b], CompareRecommendation(p, q, Desc),
      ScreeningColumns(x, Desc), ScreeningColumns(y, Desc));
    assert [StatusColumn(x)] + [a] == [StatusColumn(x), a];
    assert [StatusColumn(y)] + [b] == [StatusColumn(y), b];
  }

  lemma PrimarySays(sort: SortField, d: Direction, x: Opportunity, y: Opportunity)
    ensures Says(Primary(sort, d, StandingOf(x), StandingOf(y)), Columns(sort, d, x, x, y), Columns(sort, d, y, x, y))
  {
    hide Says;
    hide Compare;
    hide CompareSupport;
    hide CompareRecommendation;
    hide CompareEligibility;
    hide CompareLegacyBest;
    hide CompareScreenedBest;
    hide SupportColumns;
    hide ScreeningColumns;
    hide EligibilityColumns;
    hide ScoreKey;
    hide F.CurrentSupport;
    hide F.CompleteReview;
    hide F.CompleteUnavailable;
    hide IndexOf;
    match sort
    case Newest => OneSays(Posted(x), Posted(y), d);
    case Salary => OneSays(Pay(x), Pay(y), d);
    case Rating => OneSays(x.humanRating, y.humanRating, d);
    case Recommendation => ScreeningSays(x, y, d);
    case CitedSupport =>
      FivesAreColumns(x, d);
      FivesAreColumns(y, d);
      FiveSay(SupportFive(x), SupportFive(y), d);
    case Score =>
      ScreeningSays(x, y, d);
      FivesAreColumns(x, d);
      FivesAreColumns(y, d);
      OneSays(ShownScore(x), ShownScore(y), d);
    case Eligibility => EligibilitySays(x, y);
    case Best =>
      if Enabled(x) || Enabled(y) {
        ScreenedSays(x, y);
      } else {
        LegacySays(x, y);
      }
  }

  /** The comparator puts one record behind another exactly when the columns do. */
  lemma ComparatorReadsColumns(sort: SortField, d: Direction, x: Opportunity, y: Opportunity)
    ensures CompareOpportunities(sort, d)(x, y) <= 0.0 <==> Follows(sort, d, x, y)
  {
    hide Primary;
    hide Columns;
    hide Says;
    hide F.CurrentSupport;
    hide F.CompleteReview;
    hide F.CompleteUnavailable;
    hide A.EligibilityView;
    hide Q.ScreeningRank;
    hide IndexOf;
    ColumnsAlike(sort, d, x, y);
    PrimarySays(sort, d, x, y);
    OneSays(x.updatedAt, y.updatedAt, Desc);
    var c := Primary(sort, d, StandingOf(x), StandingOf(y));
    var e := Compare(KeyOf(x.updatedAt), KeyOf(y.updatedAt), Desc);
    var a, b := Columns(sort, d, x, x, y), Columns(sort, d, y, x, y);
    BothSay(c, a, b, e, [Column(x.updatedAt, Desc)], [Column(y.updatedAt, Desc)]);
    SaidInFull(Or(c, e), AllColumns(sort, d, x, x, y), AllColumns(sort, d, y, x, y), x.id, y.id);
  }

  lemma SaidInFull(c: real, a: seq<Column>, b: seq<Column>, x: string, y: string)
    requires Says(c, a, b)
    ensures Or(c, StringSign(x, y) as real) <= 0.0 <==> InOrder(a, b, x, y)
  {
    var none: seq<Column> := [];
    assert a + none == a && b + none == b;
    assert StringSign(x, y) as real <= 0.0 <==> InOrder(none, none, x, y);
  }

  // -------------------------------------------------------------- the sorted list

  /** A list the sort can put in order: of one kind of records, or clear with distinct ids. */
  ghost predicate Orderable(records: seq<Opportunity>, sort: SortField, dir: Direction) {
    || (HasFirstKey(sort) && (sort == Score ==> SameScreening(Standings(records))))
    || (DistinctRecords(records) && Clear(sort, dir, Standings(records)))
  }

  /** Any two records of the sorted list stand as their columns say. */
  lemma SortedByColumns(records: seq<Opportunity>, sort: SortField, dir: Direction)
    requires Orderable(records, sort, dir)
    ensures var out := SortOpportunities(records, sort, dir);
            && multiset(out) == multiset(records)
            && forall i, j :: 0 <= i < j < |out| ==> Follows(sort, dir, out[i], out[j])
  {
    hide Follows;
    hide Clear;
    hide SameScreening;
    hide CompareStandings;
    hide StandingOf;
    var out, cmp := SortOpportunities(records, sort, dir), CompareOpportunities(sort, dir);
    if HasFirstKey(sort) && (sort == Score ==> SameScreening(Standings(records))) {
      ChainConsistent(records, sort, dir);
      S.SortSorts(cmp, records, Elements(records));
    } else {
      SortedExactlyWhenClear(records, sort, dir);
      assert Arranged(RecordBefore(sort, dir), out);
    }
    forall i, j | 0 <= i < j < |out| ensures Follows(sort, dir, out[i], out[j]) {
      assert S.Leq(cmp, out[i], out[j]) || RecordBefore(sort, dir)(out[i], out[j]);
      ComparatorReadsColumns(sort, dir, out[i], out[j]);
    }
  }

  // ------------------------------------------------------------ field by field

  predicate Ordered(dir: Direction, x: real, y: real) {
    if dir == Asc then x <= y else x >= y
  }

  lemma FirstColumnPlaced(a: seq<Column>, b: seq<Column>, x: string, y: string)
    requires |a| == |b| > 0 && InOrder(a, b, x, y)
    ensures Placed(a[0].order, a[0].value, b[0].value)
  {
  }

  lemma FirstPlaced(sort: SortField, d: Direction, x: Opportunity, y: Opportunity)
    requires Follows(sort, d, x, y)
    ensures var a, b := AllColumns(sort, d, x, x, y), AllColumns(sort, d, y, x, y);
            |a| > 0 && |b| > 0 && Placed(a[0].order, a[0].value, b[0].value)
  {
    hide InOrder;
    hide StatusColumn;
    hide EvidenceColumns;
    hide EligibilityColumns;
    ColumnsAlike(sort, d, x, y);
    FirstColumnPlaced(AllColumns(sort, d, x, x, y), AllColumns(sort, d, y, x, y), x.id, y.id);
  }

  /** The second column decides where the first does not. */
  lemma SecondPlaced(sort: SortField, d: Direction, x: Opportunity, y: Opportunity)
    requires Follows(sort, d, x, y) && |AllColumns(sort, d, x, x, y)| > 1
    ensures var a, b := AllColumns(sort, d, x, x, y), AllColumns(sort, d, y, x, y);
            |a| == |b| && (a[0].value == b[0].value ==> Placed(a[1].order, a[1].value, b[1].value))
  {
    hide InOrder;
    hide AllColumns;
    ColumnsAlike(sort, d, x, y);
    var a, b := AllColumns(sort, d, x, x, y), AllColumns(sort, d, y, x, y);
    if a[0].value == b[0].value {
      NextInOrder(a, b, x.id, y.id);
      FirstColumnPlaced(a[1..], b[1..], x.id, y.id);
    }
  }

  lemma NextInOrder(a: seq<Column>, b: seq<Column>, x: string, y: string)
    requires |a| == |b| > 0 && a[0].value == b[0].value && InOrder(a, b, x, y)
    ensures InOrder(a[1..], b[1..], x, y)
  {
  }

  ghost predicate InFront(out: seq<Opportunity>, i: int, j: int) {
    0 <= i < j < |out|
  }

  /** Sorted by salary: by the upper bound, and by the lower one only where there is no upper one. */
  lemma SalariesInOrder(records: seq<Opportunity>, dir: Direction)
    ensures var out := SortOpportunities(records, Salary, dir);
            forall i, j :: InFront(out, i, j) ==>
              var a, b := out[i], out[j];
              && (a.salaryMax.Some? && b.salaryMax.Some? ==> Ordered(dir, a.salaryMax.value, b.salaryMax.value))
              && (a.salaryMax.Some? && b.salaryMax.None? && b.salaryMin.Some? ==>
                    Ordered(dir, a.salaryMax.value, b.salaryMin.value))
              && (a.salaryMax.None? && a.salaryMin.Some? && b.salaryMax.Some? ==>
                    Ordered(dir, a.salaryMin.value, b.salaryMax.value))
              && (a.salaryMax.None? && b.salaryMax.None? && a.salaryMin.Some? && b.salaryMin.Some? ==>
                    Ordered(dir, a.salaryMin.value, b.salaryMin.value))
              && (a.salaryMax.None? && a.salaryMin.None? ==> b.salaryMax.None? && b.salaryMin.None?)
  {
    hide SortOpportunities;
    hide StandingOf;
    hide SameScreening;
    hide Follows;
    SortedByColumns(records, Salary, dir);
    var out := SortOpportunities(records, Salary, dir);
    forall i, j | InFront(out, i, j) ensures Placed(dir, Pay(out[i]), Pay(out[j])) {
      FirstPlaced(Salary, dir, out[i], out[j]);
    }
  }

  /** Sorted by date: by the day posted, and by the day first seen only where there is none. */
  lemma DatesInOrder(records: seq<Opportunity>, dir: Direction)
    ensures var out := SortOpportunities(records, Newest, dir);
            forall i, j :: InFront(out, i, j) ==>
              var a, b := out[i], out[j];
              && (a.postedAt.Some? && b.postedAt.Some? ==> Ordered(dir, a.postedAt.value, b.postedAt.value))
              && (a.postedAt.Some? && b.postedAt.None? && b.firstSeenAt.Some? ==>
                    Ordered(dir, a.postedAt.value, b.firstSeenAt.value))
              && (a.postedAt.None? && a.firstSeenAt.Some? && b.postedAt.Some? ==>
                    Ordered(dir, a.firstSeenAt.value, b.postedAt.value))
              && (a.postedAt.None? && b.postedAt.None? && a.firstSeenAt.Some? && b.firstSeenAt.Some? ==>
                    Ordered(dir, a.firstSeenAt.value, b.firstSeenAt.value))
              && (a.postedAt.None? && a.firstSeenAt.None? ==> b.postedAt.None? && b.firstSeenAt.None?)
  {
    hide SortOpportunities;
    hide StandingOf;
    hide SameScreening;
    hide Follows;
    SortedByColumns(records, Newest, dir);
    var out := SortOpportunities(records, Newest, dir);
    forall i, j | InFront(out, i, j) ensures Placed(dir, Posted(out[i]), Posted(out[j])) {
      FirstPlaced(Newest, dir, out[i], out[j]);
    }
  }

  lemma RatingsInOrder(records: seq<Opportunity>, dir: Direction)
    ensures var out := SortOpportunities(records, Rating, dir);
            forall i, j :: InFront(out, i, j) ==>
              var a, b := out[i].humanRating, out[j].humanRating;
              && (b.Some? ==> a.Some? && Ordered(dir, a.value, b.value))
              && (a == b ==> NewerFirst(out[i], out[j]))
  {
    hide SortOpportunities;
    hide StandingOf;
    hide SameScreening;
    hide Follows;
    SortedByColumns(records, Rating, dir);
    var out := SortOpportunities(records, Rating, dir);
    forall i, j | InFront(out, i, j)
      ensures Placed(dir, out[i].humanRating, out[j].humanRating)
      ensures out[i].humanRating == out[j].humanRating ==> NewerFirst(out[i], out[j])
    {
      FirstPlaced(Rating, dir, out[i], out[j]);
      SecondPlaced(Rating, dir, out[i], out[j]);
    }
  }

  /** The later update first, records without one last. */
  predicate NewerFirst(a: Opportunity, b: Opportunity) {
    b.updatedAt.Some? ==> a.updatedAt.Some? && a.updatedAt.value >= b.updatedAt.value
  }

  /** A record whose numeric score is not shown: its review is of the complete kind, readable or not. */
  predicate ScoreHidden(o: Opportunity) {
    || o.review.statusUnknown
    || (o.review.projection.Some? && o.review.projection.value.mode == F.CompleteMaterial)
  }

  lemma TierIsHidden(o: Opportunity)
    ensures InCompleteTier(o) <==> ScoreHidden(o)
  {
  }

  /** Without question screening, records are sorted by score, those whose score is hidden or missing last. */
  lemma ScoresInOrder(records: seq<Opportunity>, dir: Direction)
    requires forall o :: o in records ==> !Enabled(o)
    ensures var out := SortOpportunities(records, Score, dir);
            forall i, j :: InFront(out, i, j) && !ScoreHidden(out[j]) && out[j].latestScore.Some? ==>
              && !ScoreHidden(out[i]) && out[i].latestScore.Some?
              && Ordered(dir, out[i].latestScore.value, out[j].latestScore.value)
  {
    hide SortOpportunities;
    hide SameScreening;
    hide Follows;
    hide Q.ScreeningRank;
    hide StandingOf;
    hide ShownScore;
    AllUnscreened(records);
    SortedByColumns(records, Score, dir);
    var out := SortOpportunities(records, Score, dir);
    forall i, j | InFront(out, i, j) ensures Placed(dir, ShownScore(out[i]), ShownScore(out[j])) {
      FirstPlaced(Score, dir, out[i], out[j]);
      assert out[i] in multiset(out) && out[j] in multiset(out);
      assert out[i] in records && out[j] in records;
    }
    forall o: Opportunity ensures ShownScore(o) == if ScoreHidden(o) then None else o.latestScore {
      ShownUnlessHidden(o);
    }
  }

  lemma ShownUnlessHidden(o: Opportunity)
    ensures ShownScore(o) == if ScoreHidden(o) then None else o.latestScore
  {
    hide F.CompleteReview;
    hide F.CompleteUnavailable;
    hide ScoreHidden;
    TierIsHidden(o);
  }

  lemma AllUnscreened(records: seq<Opportunity>)
    requires forall o :: o in records ==> !Enabled(o)
    ensures SameScreening(Standings(records))
  {
    forall o | o in records ensures !StandingOf(o).screened {
      StatusSays(o, o);
    }
  }

  /** Screened records: by recommended percentage, and by covered percentage where that is the same. */
  lemma RecommendationsInOrder(records: seq<Opportunity>, sort: SortField, dir: Direction)
    requires sort == Recommendation || (sort == Score && forall o :: o in records ==> Enabled(o))
    ensures var out := SortOpportunities(records, sort, dir);
            forall i, j :: InFront(out, i, j) ==>
              var a, b := Q.ScreeningRank(out[i].screening), Q.ScreeningRank(out[j].screening);
              && Placed(dir, a.recommendationPercent, b.recommendationPercent)
              && (a.recommendationPercent == b.recommendationPercent ==>
                    Placed(Desc, a.evidenceCoveragePercent, b.evidenceCoveragePercent))
  {
    hide SortOpportunities;
    hide SameScreening;
    hide Follows;
    hide Placed;
    hide Q.ScreeningRank;
    hide StandingOf;
    if sort == Score {
      AllScreened(records);
    }
    SortedByColumns(records, sort, dir);
    var out := SortOpportunities(records, sort, dir);
    forall i, j | InFront(out, i, j)
      ensures var a, b := Q.ScreeningRank(out[i].screening), Q.ScreeningRank(out[j].screening);
              && Placed(dir, a.recommendationPercent, b.recommendationPercent)
              && (a.recommendationPercent == b.recommendationPercent ==>
                    Placed(Desc, a.evidenceCoveragePercent, b.evidenceCoveragePercent))
    {
      assert out[i] in multiset(out) && out[j] in multiset(out);
      assert out[i] in records && out[j] in records;
      FirstPlaced(sort, dir, out[i], out[j]);
      SecondPlaced(sort, dir, out[i], out[j]);
    }
  }

  lemma AllScreened(records: seq<Opportunity>)
    requires forall o :: o in records ==> Enabled(o)
    ensures SameScreening(Standings(records))
  {
    forall o | o in records ensures StandingOf(o).screened {
      StatusSays(o, o);
    }
  }

  lemma StatusFirst(d: Direction, x: Opportunity, y: Opportunity)
    requires Follows(Best, d, x, y)
    ensures IndexOf(STATUS_ORDER, x.status) <= IndexOf(STATUS_ORDER, y.status)
  {
    hide Follows;
    hide IndexOf;
    hide Enabled;
    hide Considering;
    hide InCompleteTier;
    hide Assessable;
    hide EligibilityColumns;
    hide ScreeningColumns;
    hide EvidenceColumns;
    hide Q.ScreeningRank;
    FirstPlaced(Best, d, x, y);
  }

  /** Between records of one status, conflicts decide if question screening is on for either, eligibility if not. */
  lemma StatusTied(d: Direction, x: Opportunity, y: Opportunity)
    requires Follows(Best, d, x, y) && x.status == y.status
    ensures if Enabled(x) || Enabled(y)
            then Q.ScreeningRank(x.screening).conflictCount <= Q.ScreeningRank(y.screening).conflictCount
            else A.EligibilityView(x.sourceEligibility, x.assessment).eligibilityPriority
                 <= A.EligibilityView(y.sourceEligibility, y.assessment).eligibilityPriority
  {
    hide Follows;
    hide IndexOf;
    hide Enabled;
    hide Considering;
    hide InCompleteTier;
    hide Assessable;
    hide ScreeningColumns;
    hide EvidenceColumns;
    hide Q.ScreeningRank;
    hide A.EligibilityView;
    SecondPlaced(Best, d, x, y);
  }

  /** The statuses in the order of the best sort; a status not listed comes last. */
  ghost predicate ListedNoLater(x: string, y: string) {
    var listed := ["apply", "applied", "interviewing", "offer", "recommended", "found",
                   "maybe", "needs_input", "archived", "reject", "rejected", "closed"];
    y in listed ==> exists m, n :: 0 <= m <= n < 12 && listed[m] == x && listed[n] == y
  }

  lemma NoLaterIffIndex(x: string, y: string)
    ensures ListedNoLater(x, y) <==> IndexOf(STATUS_ORDER, x) <= IndexOf(STATUS_ORDER, y)
  {
    hide IndexOf;
    var listed := ["apply", "applied", "interviewing", "offer", "recommended", "found",
                   "maybe", "needs_input", "archived", "reject", "rejected", "closed"];
    assert listed == STATUS_ORDER;
    var m, n := IndexOf(STATUS_ORDER, x), IndexOf(STATUS_ORDER, y);
    DistinctListed();
    if m <= n < 12 {
      assert listed[m] == x && listed[n] == y;
    }
  }

  lemma DistinctListed()
    ensures forall m, n :: 0 <= m < n < |STATUS_ORDER| ==> STATUS_ORDER[m] != STATUS_ORDER[n]
  {
  }

  /** The best sort goes by status, and within a status by conflicts or by eligibility priority. */
  lemma StatusesInOrder(records: seq<Opportunity>, dir: Direction)
    requires DistinctRecords(records) && Clear(Best, dir, Standings(records))
    ensures var out := SortOpportunities(records, Best, dir);
            forall i, j :: InFront(out, i, j) ==>
              && ListedNoLater(out[i].status, out[j].status)
              && (out[i].status == out[j].status ==>
                    if Enabled(out[i]) || Enabled(out[j])
                    then Q.ScreeningRank(out[i].screening).conflictCount
                         <= Q.ScreeningRank(out[j].screening).conflictCount
                    else A.EligibilityView(out[i].sourceEligibility, out[i].assessment).eligibilityPriority
                         <= A.EligibilityView(out[j].sourceEligibility, out[j].assessment).eligibilityPriority)
  {
    hide Follows;
    hide Clear;
    hide Standings;
    hide DistinctRecords;
    hide ListedNoLater;
    hide Enabled;
    hide Q.ScreeningRank;
    hide A.EligibilityView;
    hide SortOpportunities;
    SortedByColumns(records, Best, dir);
    var out := SortOpportunities(records, Best, dir);
    forall i, j | InFront(out, i, j)
      ensures ListedNoLater(out[i].status, out[j].status)
      ensures out[i].status == out[j].status ==>
                if Enabled(out[i]) || Enabled(out[j])
                then Q.ScreeningRank(out[i].screening).conflictCount
                     <= Q.ScreeningRank(out[j].screening).conflictCount
                else A.EligibilityView(out[i].sourceEligibility, out[i].assessment).eligibilityPriority
                     <= A.EligibilityView(out[j].sourceEligibility, out[j].assessment).eligibilityPriority
    {
      StatusFirst(dir, out[i], out[j]);
      NoLaterIffIndex(out[i].status, out[j].status);
      if out[i].status == out[j].status {
        StatusTied(dir, out[i], out[j]);
      }
    }
  }

  /** The eligibility sort goes by the priority of the bucket first. */
  lemma PrioritiesInOrder(records: seq<Opportunity>, dir: Direction)
    requires DistinctRecords(records) && Clear(Eligibility, dir, Standings(records))
    ensures var out := SortOpportunities(records, Eligibility, dir);
            forall i, j :: InFront(out, i, j) ==>
              var a := A.EligibilityView(out[i].sourceEligibility, out[i].assessment);
              var b := A.EligibilityView(out[j].sourceEligibility, out[j].assessment);
              && a.eligibilityPriority <= b.eligibilityPriority
              && (a.eligibilityPriority == b.eligibilityPriority && a.readiness == b.readiness == A.Assessable ==>
                    a.fitScore >= b.fitScore)
  {
    hide SortOpportunities;
    hide StandingOf;
    hide SameScreening;
    hide Follows;
    hide Clear;
    hide Standings;
    hide DistinctRecords;
    hide A.EligibilityView;
    SortedByColumns(records, Eligibility, dir);
    var out := SortOpportunities(records, Eligibility, dir);
    forall i, j | InFront(out, i, j)
      ensures var a := A.EligibilityView(out[i].sourceEligibility, out[i].assessment);
              var b := A.EligibilityView(out[j].sourceEligibility, out[j].assessment);
              && a.eligibilityPriority <= b.eligibilityPriority
              && (a.eligibilityPriority == b.eligibilityPriority && a.readiness == b.readiness == A.Assessable ==>
                    a.fitScore >= b.fitScore)
    {
      FirstPlaced(Eligibility, dir, out[i], out[j]);
      SecondPlaced(Eligibility, dir, out[i], out[j]);
    }
  }

  // ----------------------------------------------------------------------- the ids

  /** `a` is a beginning of `b`, or smaller in the first character they differ in. */
  ghost predicate Alphabetic(a: string, b: string) {
    exists k :: 0 <= k <= |a| && k <= |b| && a[..k] == b[..k] && (k == |a| || (k < |b| && a[k] < b[k]))
  }

  lemma {:induction false} IdsAscend(a: string, b: string)
    ensures StringSign(a, b) <= 0 <==> Alphabetic(a, b)
  {
    if a == "" {
      assert a[..0] == b[..0];
    } else if b == "" || a[0] != b[0] {
      if b != "" && a[0] < b[0] {
        assert a[..0] == b[..0];
      }
      forall k | 0 < k <= |a| && k <= |b| ensures a[..k] != b[..k] {
        assert a[..k][0] == a[0] && b[..k][0] == b[0];
      }
    } else {
      IdsAscend(a[1..], b[1..]);
      AlphabeticTail(a, b);
    }
  }

  lemma AlphabeticTail(a: string, b: string)
    requires a != "" && b != "" && a[0] == b[0]
    ensures Alphabetic(a, b) <==> Alphabetic(a[1..], b[1..])
  {
    var s, t := a[1..], b[1..];
    if k :| 0 <= k <= |a| && k <= |b| && a[..k] == b[..k] && (k == |a| || (k < |b| && a[k] < b[k])) {
      if k > 0 {
        assert s[..k - 1] == a[..k][1..] && t[..k - 1] == b[..k][1..];
      }
    }
    if k :| 0 <= k <= |s| && k <= |t| && s[..k] == t[..k] && (k == |s| || (k < |t| && s[k] < t[k])) {
      assert a[..k + 1] == [a[0]] + s[..k] && b[..k + 1] == [b[0]] + t[..k];
    }
  }
}
