/** The stored screening projection: accepted only when its aggregate is the one its answers give. */
module QuestionScreening {
  import opened Sequences
  import opened JsText
  import opened ScreeningQuestions
  import opened ScreeningTheorems

  datatype RoleOutcome = Unrelated | Continue
  datatype RolePreScreen = RolePreScreen(
    title: string, targetRoles: seq<string>, outcome: RoleOutcome, confidence: real)

  datatype MatchStatus = SkillSupported | SkillPartial | SkillUnknown
  datatype SkillMatch = SkillMatch(
    requirement: string, status: MatchStatus, assessed: bool, confidence: real,
    attributionConfidence: Option<real>, sourceCitation: SourceCitation, candidateCitations: seq<CandidateCitation>)

  datatype Projection = Projection(
    sourceCurrent: bool,
    questions: seq<Question>,
    answers: seq<Answer>,
    aggregate: Aggregate,
    rolePreScreen: Option<RolePreScreen>,
    skillMatches: Option<seq<SkillMatch>>)

  const UNRELATED_CONFIDENCE := 0.95

  predicate Share(x: real) {
    0.0 <= x <= 1.0
  }

  predicate SourceCitationValid(c: SourceCitation) {
    c.text != "" && c.start >= 0 && c.end - c.start == |c.text|
  }

  predicate CandidateCitationValid(c: CandidateCitation) {
    c.id != "" && c.text != ""
  }

  predicate RoleValid(role: RolePreScreen, answers: seq<Answer>) {
    && role.targetRoles != [] && "" !in role.targetRoles
    && Share(role.confidence)
    && answers == []
    && (role.outcome == Unrelated ==> role.confidence >= UNRELATED_CONFIDENCE)
  }

  predicate AnswerPresentable(a: Answer) {
    && (a.attributionConfidence.Some? ==> Share(a.attributionConfidence.value))
    && (forall c :: c in a.sourceCitations ==> c.id != "" && SourceCitationValid(c))
    && (forall c :: c in a.candidateCitations ==> CandidateCitationValid(c))
  }

  predicate SkillMatchValid(m: SkillMatch) {
    && !Blank(m.requirement)
    && (m.attributionConfidence.Some? ==> Share(m.attributionConfidence.value))
    && Share(m.confidence)
    && SourceCitationValid(m.sourceCitation)
    && (forall c :: c in m.candidateCitations ==> CandidateCitationValid(c))
    && (m.status != SkillUnknown ==> m.assessed && m.confidence >= CONFIDENT && m.candidateCitations != [])
    && (!m.assessed ==> m.status == SkillUnknown && m.candidateCitations == [])
  }

  /** A title pre-screen carries no answers, so its questions are not aggregated. */
  function ScoredQuestions(v: Projection): seq<Question> {
    if v.rolePreScreen.Some? then [] else v.questions
  }

  predicate ProjectionAccepted(v: Projection) {
    && v.sourceCurrent
    && (v.rolePreScreen.Some? ==> RoleValid(v.rolePreScreen.value, v.answers))
    && (forall i :: 0 <= i < |v.questions| ==> QuestionValid(v.questions[i]))
    && (forall i :: 0 <= i < |v.answers| ==> AnswerPresentable(v.answers[i]))
    && (v.skillMatches.Some? ==> forall m :: m in v.skillMatches.value ==> SkillMatchValid(m))
    && Evaluate(ScoredQuestions(v), v.answers) == Success(v.aggregate)
  }

  datatype ScreeningRecord = ScreeningRecord(
    projection: Option<Projection>, statusUnknown: bool, enabledFlag: Option<bool>)

  function CurrentScreening(record: ScreeningRecord): Option<Projection> {
    if record.statusUnknown || record.projection.None? || !ProjectionAccepted(record.projection.value)
    then None else record.projection
  }

  datatype Rank = Rank(
    enabled: bool, conflictCount: nat, recommendationPercent: Option<real>, evidenceCoveragePercent: Option<real>)

  function ScreeningRank(record: ScreeningRecord): Rank {
    var current := CurrentScreening(record);
    var enabled :=
      if record.enabledFlag.Some? then record.enabledFlag.value
      else record.statusUnknown || record.projection.Some?;
    if current.None? then Rank(enabled, 0, None, None)
    else Rank(
      enabled,
      |current.value.aggregate.mustHaveConflictIds|,
      current.value.aggregate.recommendationPercent,
      current.value.aggregate.evidenceCoveragePercent)
  }

  /** Whatever a record stores, its rank is within bounds, and it shows no more than its answers give. */
  lemma RankBounded(record: ScreeningRecord)
    ensures PercentsBounded(ScreeningRank(record).recommendationPercent, ScreeningRank(record).evidenceCoveragePercent)
    ensures ScreeningRank(record).conflictCount <= MAX_ACTIVE
  {
    var current := CurrentScreening(record);
    if current.Some? {
      var v := current.value;
      RecommendationWithinCoverage(ScoredQuestions(v), v.answers);
      ConflictsAreActive(ScoredQuestions(v), v.answers);
    }
  }

  lemma ConflictsAreActive(questions: seq<Question>, answers: seq<Answer>)
    requires Evaluate(questions, answers).Success?
    ensures |Evaluate(questions, answers).value.mustHaveConflictIds| <= MAX_ACTIVE
  {
    Accepted(questions, answers);
  }

  /** A title pre-screen alone never yields a recommendation, a coverage or a conflict. */
  lemma PreScreenShowsNothing(record: ScreeningRecord)
    requires CurrentScreening(record).Some? && record.projection.value.rolePreScreen.Some?
    ensures var r := ScreeningRank(record);
            r.conflictCount == 0 && r.recommendationPercent.None? && r.evidenceCoveragePercent.None?
  {
    var v := record.projection.value;
    Accepted([], v.answers);
    assert Active([]) == [];
    assert TotalsOf([], v.answers) == Totals(0, 0, 0, 0, [], [], [], []);
  }
}
