/** The smallest records the validators accept, so that what acceptance implies is about something. */
module MinimalRecords {
  import opened Sequences
  import opened JsText
  import F = FitReview
  import T = FitReviewTheorems
  import Q = ScreeningQuestions

  // ---------------------------------------------- a posting with one requirement

  function OneRow(id: string, clauseId: string, status: F.Support): F.Row {
    F.Row(
      id, id, status, F.SeniorityUncertain,
      [F.CandidateCitation(id, 0, |id|, id, id, id, F.WholeFact)],
      [F.PostingCitation(clauseId, 0, |clauseId|, clauseId, F.WholeClause, None)],
      None, Some([]), Some(F.Criterion), Some(F.ConfirmedRequirement))
  }

  function OneFit(status: F.Support): F.EvidenceFit {
    if status == F.Strength then F.EvidenceFit(1, 0, 0, 0, 0, 1, F.SupportsAll, Some(1.0))
    else F.EvidenceFit(0, 1, 0, 0, 0, 1, F.NeedsEvidence, Some(0.0))
  }

  const ONE_PROBABILITY := 0.9

  /** The strength stands for itself; the uncertain row is partially supported, with verification and advice. */
  function OneClauseReview(id: string, clauseId: string, status: F.Support): F.Review {
    F.Review(
      F.CompleteMaterial, if status == F.Strength then F.Luna else F.Sol, true, true,
      F.Coverage(1, true, true, [id], [], Some(OneFit(status)), [F.Clause(clauseId, F.ConfirmedRequirement)],
                 Some([]), Some([clauseId])),
      [OneRow(id, clauseId, status)],
      if status == F.Strength then None
      else Some(F.Verification(F.PartialRelevanceV2, true, 0, 0, 0, 0, Some(1), Some(1), Some([id]))),
      Some(OneFit(status)), Some(F.Completion(true, [], 1, 1, 0)),
      if status == F.Strength then None
      else Some(F.Advice(1, [F.Pair(id, ONE_PROBABILITY, true)], Some(ONE_PROBABILITY))))
  }

  lemma OneOf<U>(x: U, p: U -> bool)
    ensures Filter([x], p) == if p(x) then [x] else []
  {
    assert [x][1..] == [];
  }

  lemma OneSummary(id: string, clauseId: string, status: F.Support)
    ensures F.EvidenceSummary([OneRow(id, clauseId, status)]) == OneFit(status)
  {
    var row := OneRow(id, clauseId, status);
    OneOf(row, F.IsSupported);
    OneOf(row, F.IsUncertain);
    OneOf(row, F.IsSourceUnknown);
    OneOf(row, F.IsUnclassified);
    OneOf(row, F.IsContext);
    assert Count([row], F.IsSupported) == (if status == F.Strength then 1 else 0);
    assert Count([row], F.IsUncertain) == (if status == F.Strength then 0 else 1);
    assert Count([row], F.IsSourceUnknown) == 0 && Count([row], F.IsUnclassified) == 0;
    assert Count([row], F.IsContext) == 0;
  }

  lemma OneUnit(id: string, clauseId: string, status: F.Support)
    ensures var review := OneClauseReview(id, clauseId, status);
            && F.MaterialClauses(review) == [F.Clause(clauseId, F.ConfirmedRequirement)]
            && F.MaterialFields(review) == []
            && F.MaterialUnitIds(review) == [clauseId]
            && Count(review.coverage.clauses, F.IsPossible) == 0
  {
    var clause := F.Clause(clauseId, F.ConfirmedRequirement);
    OneOf(clause, F.IsMaterial);
    OneOf(clause, F.IsPossible);
    assert F.ClauseIds([clause]) == [clauseId];
    assert F.FieldIds([]) == [];
  }

  lemma OneRowAnswers(id: string, clauseId: string, status: F.Support)
    requires F.Text(id) && F.Text(clauseId)
    ensures F.RowWellFormed(OneRow(id, clauseId, status), OneClauseReview(id, clauseId, status))
    ensures F.RowAnswersUnit(OneRow(id, clauseId, status), [F.Clause(clauseId, F.ConfirmedRequirement)], [])
  {
    hide F.FieldPath;
    assert id != "" && clauseId != "";
  }

  lemma OneRowLinked(id: string, clauseId: string, status: F.Support)
    requires F.Text(id) && F.Text(clauseId)
    ensures F.RowsLinked([OneRow(id, clauseId, status)], [F.Clause(clauseId, F.ConfirmedRequirement)], [])
  {
    hide F.RowAnswersUnit;
    OneRowAnswers(id, clauseId, status);
  }

  lemma OneUnitAccepted(id: string, clauseId: string, status: F.Support)
    requires F.Text(id) && F.Text(clauseId)
    ensures F.UnitsAccepted(OneClauseReview(id, clauseId, status))
  {
    hide F.MaterialUnitIds;
    hide F.FieldWellFormed;
    hide F.Text;
    OneUnit(id, clauseId, status);
  }

  lemma OneCompletion(id: string, clauseId: string, status: F.Support)
    ensures var review := OneClauseReview(id, clauseId, status);
            F.CompletionAccepted(review.completion.value, review)
  {
    hide F.MaterialUnitIds;
    hide F.MaterialFields;
    OneUnit(id, clauseId, status);
  }

  lemma OneVerification(id: string, clauseId: string)
    requires F.Text(id)
    ensures var review := OneClauseReview(id, clauseId, F.Uncertain);
            F.VerificationAccepted(review.verification.value, review)
  {
    hide F.Text;
    var row := OneRow(id, clauseId, F.Uncertain);
    OneOf(row, F.IsCriterion);
    OneOf(row, F.IsStrength);
    OneOf(row, (r: F.Row) => r.seniority == F.SenioritySupported);
    assert Count([row], F.IsCriterion) == 1 && Count([row], F.IsStrength) == 0;
    assert row in [row] && F.PartiallySupportable(row);
  }

  lemma OneAdvice(id: string, clauseId: string)
    requires F.Text(id)
    ensures var review := OneClauseReview(id, clauseId, F.Uncertain);
            F.AdviceAccepted(review.advice.value, review)
  {
    hide F.Text;
    var row, pair := OneRow(id, clauseId, F.Uncertain), F.Pair(id, ONE_PROBABILITY, true);
    OneOf(row, F.IsConsidered);
    OneOf(pair, F.IsCited);
    assert Count([pair], F.IsCited) == 1;
    assert [pair][1..] == [];
    assert F.ProbabilitySum([pair]) == ONE_PROBABILITY;
    assert pair in [pair] && F.Establishes(pair);
  }

  lemma OneComplete(id: string, clauseId: string, status: F.Support)
    requires F.Text(id) && F.Text(clauseId)
    ensures var review := OneClauseReview(id, clauseId, status);
            F.HeaderAccepted(review) && F.RowsAccepted(review) && F.CompleteAccepted(review)
  {
    hide F.Text;
    hide F.RowWellFormed;
    hide F.RowsLinked;
    hide F.UnitsAccepted;
    hide F.CompletionAccepted;
    hide F.EvidenceSummary;
    hide F.MaterialClauses;
    hide F.MaterialFields;
    hide OneRow;
    OneSummary(id, clauseId, status);
    OneUnit(id, clauseId, status);
    OneRowAnswers(id, clauseId, status);
    OneRowLinked(id, clauseId, status);
    OneUnitAccepted(id, clauseId, status);
    OneCompletion(id, clauseId, status);
    OneRowId(id, clauseId, status);
  }

  lemma OneRowId(id: string, clauseId: string, status: F.Support)
    ensures F.RowIds([OneRow(id, clauseId, status)]) == [id]
  {
  }

  /**
   A posting whose only clause is a requirement is accepted: as fully supported if one fact backs it, and as
   partially supported if a cited fact probably does, with its verification and its advice.
   */
  lemma OneClauseAccepted(id: string, clauseId: string, status: F.Support)
    requires F.Text(id) && F.Text(clauseId)
    ensures var review := OneClauseReview(id, clauseId, status);
            && T.AcceptedComplete(review)
            && (status == F.Strength ==> review.evidenceFit.value.status == F.SupportsAll)
            && (status == F.Uncertain ==>
                  && review.verification.Some? && review.verification.value.version == F.PartialRelevanceV2
                  && review.advice.Some? && review.advice.value.weightedMean == Some(ONE_PROBABILITY))
  {
    hide F.HeaderAccepted;
    hide F.RowsAccepted;
    hide F.CompleteAccepted;
    hide F.VerificationAccepted;
    hide F.AdviceAccepted;
    OneComplete(id, clauseId, status);
    if status == F.Uncertain {
      OneVerification(id, clauseId);
      OneAdvice(id, clauseId);
    }
  }

  // ------------------------------------------ a posting with two requirements

  const TWO_FIT := F.EvidenceFit(1, 1, 0, 0, 0, 2, F.SupportedWithUncertainties, Some(0.5))

  /** One requirement backed by a fact, one open. */
  function TwoClauseReview(id: string, clauseId: string, other: string, otherClause: string): F.Review {
    OneClauseReview(id, clauseId, F.Strength).(
      coverage := F.Coverage(
        1, true, true, [id, other], [], Some(TWO_FIT),
        [F.Clause(clauseId, F.ConfirmedRequirement), F.Clause(otherClause, F.ConfirmedRequirement)],
        Some([]), Some([clauseId, otherClause])),
      requirements := [OneRow(id, clauseId, F.Strength), OneRow(other, otherClause, F.Uncertain)],
      evidenceFit := Some(TWO_FIT), completion := Some(F.Completion(true, [], 2, 2, 0)))
  }

  lemma TwoOf<U>(x: U, y: U, p: U -> bool)
    ensures Filter([x, y], p) == (if p(x) then [x] else []) + (if p(y) then [y] else [])
  {
    assert [x, y] == [x] + [y];
    FilterAppend([x], [y], p);
    OneOf(x, p);
    OneOf(y, p);
  }

  lemma TwoSummary(id: string, clauseId: string, other: string, otherClause: string)
    ensures F.EvidenceSummary([OneRow(id, clauseId, F.Strength), OneRow(other, otherClause, F.Uncertain)]) == TWO_FIT
  {
    var x, y := OneRow(id, clauseId, F.Strength), OneRow(other, otherClause, F.Uncertain);
    TwoOf(x, y, F.IsSupported);
    TwoOf(x, y, F.IsUncertain);
    TwoOf(x, y, F.IsSourceUnknown);
    TwoOf(x, y, F.IsUnclassified);
    TwoOf(x, y, F.IsContext);
    assert Count([x, y], F.IsSupported) == 1 && Count([x, y], F.IsUncertain) == 1;
    assert Count([x, y], F.IsSourceUnknown) == 0 && Count([x, y], F.IsUnclassified) == 0;
    assert Count([x, y], F.IsContext) == 0;
  }

  lemma TwoUnits(id: string, clauseId: string, other: string, otherClause: string)
    ensures var review := TwoClauseReview(id, clauseId, other, otherClause);
            && F.MaterialClauses(review) == review.coverage.clauses && F.MaterialFields(review) == []
            && F.MaterialUnitIds(review) == [clauseId, otherClause]
            && Count(review.coverage.clauses, F.IsPossible) == 0
  {
    var x, y := F.Clause(clauseId, F.ConfirmedRequirement), F.Clause(otherClause, F.ConfirmedRequirement);
    TwoOf(x, y, F.IsMaterial);
    TwoOf(x, y, F.IsPossible);
    assert F.ClauseIds([x, y]) == [clauseId, otherClause];
    assert F.FieldIds([]) == [];
    assert [clauseId, otherClause] + [] == [clauseId, otherClause];
  }

  lemma RowAnswersAmong(id: string, clauseId: string, status: F.Support, clauses: seq<F.Clause>, review: F.Review)
    requires F.Text(id) && F.Text(clauseId)
    requires Find(clauses, (c: F.Clause) => c.clauseId == clauseId) == Some(F.Clause(clauseId, F.ConfirmedRequirement))
    ensures F.RowWellFormed(OneRow(id, clauseId, status), review)
    ensures F.RowAnswersUnit(OneRow(id, clauseId, status), clauses, [])
  {
    hide F.FieldPath;
    hide Find;
    assert id != "" && clauseId != "";
  }

  lemma TwoLookups(x: F.Clause, y: F.Clause)
    requires x.clauseId != y.clauseId
    ensures Find([x, y], (c: F.Clause) => c.clauseId == x.clauseId) == Some(x)
    ensures Find([x, y], (c: F.Clause) => c.clauseId == y.clauseId) == Some(y)
  {
    assert [x, y][1..] == [y];
  }

  lemma TwoRows(id: string, clauseId: string, other: string, otherClause: string)
    requires F.Text(id) && F.Text(clauseId) && F.Text(other) && F.Text(otherClause)
    requires id != other && clauseId != otherClause
    ensures var review := TwoClauseReview(id, clauseId, other, otherClause);
            && F.RowsAccepted(review)
            && F.RowsLinked(review.requirements, review.coverage.clauses, [])
  {
    hide F.Text;
    hide F.RowWellFormed;
    hide F.RowAnswersUnit;
    var review := TwoClauseReview(id, clauseId, other, otherClause);
    TwoLookups(review.coverage.clauses[0], review.coverage.clauses[1]);
    RowAnswersAmong(id, clauseId, F.Strength, review.coverage.clauses, review);
    RowAnswersAmong(other, otherClause, F.Uncertain, review.coverage.clauses, review);
    assert F.RowIds(review.requirements) == [id, other];
    assert F.CitedIds(review.requirements) == [clauseId, otherClause];
  }

  lemma TwoUnitsAccepted(id: string, clauseId: string, other: string, otherClause: string)
    requires F.Text(clauseId) && F.Text(otherClause) && clauseId != otherClause
    ensures var review := TwoClauseReview(id, clauseId, other, otherClause);
            F.UnitsAccepted(review) && F.CompletionAccepted(review.completion.value, review)
  {
    hide F.MaterialUnitIds;
    hide F.MaterialFields;
    hide F.FieldWellFormed;
    hide F.Text;
    hide F.EvidenceSummary;
    TwoUnits(id, clauseId, other, otherClause);
    var review := TwoClauseReview(id, clauseId, other, otherClause);
    assert F.ClauseIds(review.coverage.clauses) == [clauseId, otherClause];
    assert F.FieldIds([]) == [];
  }

  /** A review with a strength and an open criterion is accepted, and says so. */
  lemma TwoClausesAccepted(id: string, clauseId: string, other: string, otherClause: string)
    requires F.Text(id) && F.Text(clauseId) && F.Text(other) && F.Text(otherClause)
    requires id != other && clauseId != otherClause
    ensures var review := TwoClauseReview(id, clauseId, other, otherClause);
            T.AcceptedComplete(review) && review.evidenceFit.value.status == F.SupportedWithUncertainties
  {
    hide F.Text;
    hide F.RowsAccepted;
    hide F.RowsLinked;
    hide F.UnitsAccepted;
    hide F.CompletionAccepted;
    hide F.EvidenceSummary;
    hide F.MaterialClauses;
    hide F.MaterialFields;
    hide F.VerificationAccepted;
    hide F.AdviceAccepted;
    hide OneRow;
    TwoSummary(id, clauseId, other, otherClause);
    TwoUnits(id, clauseId, other, otherClause);
    TwoRows(id, clauseId, other, otherClause);
    TwoUnitsAccepted(id, clauseId, other, otherClause);
  }

  // --------------------------------------------------- one answered question

  function OneQuestion(id: string, revision: string, weight: int): Q.Question {
    Q.Question(id, revision, id, Q.SourceKind, Q.MustHave, Q.Yes, weight, true)
  }

  function OneAnswer(id: string, revision: string): Q.Answer {
    Q.Answer(id, revision, Q.Replied(Q.Yes), Some(4), 1.0, [Q.SourceCitation(id, id, 0, |id|)], [], None)
  }

  lemma OneFault(id: string, revision: string, weight: int)
    ensures Q.AnswerFor([OneAnswer(id, revision)], id) == Some(OneAnswer(id, revision))
    ensures Q.FirstAnswerFault([OneQuestion(id, revision, weight)], [OneAnswer(id, revision)]).None?
  {
    assert [OneQuestion(id, revision, weight)][1..] == [];
  }

  lemma OneQuestionSet(id: string, revision: string, weight: int)
    requires Q.QuestionValid(OneQuestion(id, revision, weight))
    ensures Q.QuestionSetFault([OneQuestion(id, revision, weight)]).None?
  {
    hide Q.QuestionValid;
    OneOf(OneQuestion(id, revision, weight), Q.IsActive);
  }

  lemma OneSum<U>(x: U, f: U -> int)
    ensures SumBy([x], f) == f(x)
  {
    assert [x][1..] == [];
    assert SumBy([x][1..], f) == 0;
  }

  lemma FullPercent(weight: int)
    requires weight > 0
    ensures Q.Percent(4 * weight, weight) == 100.0
  {
    var w := weight as real;
    assert (4 * weight) as real / 4.0 == w;
    DivideBack(100.0, w);
  }

  lemma DivideBack(a: real, w: real)
    requires w > 0.0
    ensures a * w / w == a
  {
  }

  lemma OneTotal(id: string, revision: string, weight: int)
    ensures var t := Q.TotalsOf([OneQuestion(id, revision, weight)], [OneAnswer(id, revision)]);
            t.total == t.rated == t.attributed == weight && t.earned == 4 * weight
  {
    var q, answers := OneQuestion(id, revision, weight), [OneAnswer(id, revision)];
    OneFault(id, revision, weight);
    OneSum(q, Q.ScoringWeight);
    OneSum(q, x => Q.RatedWeight(x, answers));
    OneSum(q, x => Q.AttributedWeight(x, answers));
    OneSum(q, x => Q.EarnedQuarters(x, answers));
  }

  /** A valid must-have with the desired answer is accepted, and recommended in full. */
  lemma OneAnswerAccepted(id: string, revision: string, weight: int)
    requires Q.QuestionValid(OneQuestion(id, revision, weight))
    ensures var r := Q.Evaluate([OneQuestion(id, revision, weight)], [OneAnswer(id, revision)]);
            && r.Success?
            && r.value.recommendationPercent == Some(100.0) && r.value.evidenceCoveragePercent == Some(100.0)
  {
    hide Q.QuestionSetFault;
    hide Q.FirstAnswerFault;
    hide Q.TotalsOf;
    OneQuestionSet(id, revision, weight);
    OneOf(OneQuestion(id, revision, weight), Q.IsActive);
    OneFault(id, revision, weight);
    OneTotal(id, revision, weight);
    FullPercent(weight);
  }
}
