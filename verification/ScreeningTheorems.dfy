/** Properties of every accepted set of screening questions and answers. */
module ScreeningTheorems {
  import opened Sequences
  import opened ScreeningQuestions

  function Active(questions: seq<Question>): seq<Question> {
    Filter(questions, IsActive)
  }

  /** Every listed question has an acceptable answer. */
  ghost predicate AllAnswered(enabled: seq<Question>, answers: seq<Answer>) {
    forall q :: q in enabled ==> AnswerFault(q, answers).None? && q.weight >= 1
  }

  lemma {:induction false} NoFirstFault(enabled: seq<Question>, answers: seq<Answer>)
    ensures FirstAnswerFault(enabled, answers).None? <==>
            forall q :: q in enabled ==> AnswerFault(q, answers).None?
  {
    if enabled == [] {
    } else {
      NoFirstFault(enabled[1..], answers);
      assert enabled == [enabled[0]] + enabled[1..];
    }
  }

  lemma Accepted(questions: seq<Question>, answers: seq<Answer>)
    requires Evaluate(questions, answers).Success?
    ensures AllAnswered(Active(questions), answers)
    ensures CoversExactly(Active(questions), answers)
    ensures Evaluate(questions, answers).value == Summarize(TotalsOf(Active(questions), answers))
  {
    var enabled := Active(questions);
    NoFirstFault(enabled, answers);
    forall q | q in enabled ensures q.weight >= 1 {
      var i :| 0 <= i < |questions| && questions[i] == q;
      assert QuestionValid(questions[i]);
    }
  }

  // ----------------------------------------------------------------- bounds

  /** Every rated weight is attributed, and a rating earns between none and all of its weight. */
  lemma TotalsBounds(enabled: seq<Question>, answers: seq<Answer>)
    requires AllAnswered(enabled, answers)
    ensures var t := TotalsOf(enabled, answers);
            t.rated == t.attributed && 0 <= t.earned <= 4 * t.rated && 0 <= t.rated <= t.total
  {
    var rated, attributed := q => RatedWeight(q, answers), q => AttributedWeight(q, answers);
    var earned, zero := q => EarnedQuarters(q, answers), (q: Question) => 0;
    var quadruple := q => 4 * RatedWeight(q, answers);
    forall q | q in enabled
      ensures rated(q) == attributed(q) && 0 <= earned(q) <= quadruple(q) && 0 <= rated(q) <= ScoringWeight(q)
    {
      EarnedShare(q, answers);
    }
    SumByCongruent(enabled, rated, attributed);
    SumByMonotone(enabled, zero, earned);
    SumByMonotone(enabled, earned, quadruple);
    SumByMonotone(enabled, zero, rated);
    SumByMonotone(enabled, rated, ScoringWeight);
    SumByLinear(enabled, 0, rated, 0, rated, zero);
    SumByLinear(enabled, 4, rated, 0, rated, quadruple);
  }

  lemma EarnedShare(q: Question, answers: seq<Answer>)
    requires AnswerFault(q, answers).None? && q.weight >= 1
    ensures RatedWeight(q, answers) == AttributedWeight(q, answers)
    ensures 0 <= RatedWeight(q, answers) <= ScoringWeight(q)
    ensures 0 <= EarnedQuarters(q, answers) <= 4 * RatedWeight(q, answers)
  {
    var a := AnswerFor(answers, q.id).value;
    if a.alignment.Some? {
      assert ScoringWeight(q) * a.alignment.value <= ScoringWeight(q) * 4;
    }
  }

  lemma PercentMonotone(a: int, b: int, total: int)
    requires a <= b && total > 0
    ensures Percent(a, total) <= Percent(b, total)
  {
    var x, y, n := 100.0 * (a as real / 4.0), 100.0 * (b as real / 4.0), total as real;
    assert y / n - x / n == (y - x) / n;
    assert (y - x) / n >= 0.0;
  }

  lemma PercentAdds(a: int, b: int, total: int)
    requires total > 0
    ensures Percent(a, total) + Percent(b, total) == Percent(a + b, total)
  {
  }

  lemma PercentEnds(total: int)
    requires total > 0
    ensures Percent(0, total) == 0.0 && Percent(4 * total, total) == 100.0
  {
    assert (4 * total) as real / 4.0 == total as real;
    assert 100.0 * (total as real) / (total as real) == 100.0;
  }

  ghost predicate PercentsBounded(recommendation: Option<real>, coverage: Option<real>) {
    && (recommendation.Some? ==> coverage.Some? && 0.0 <= recommendation.value <= coverage.value)
    && (coverage.Some? ==> 0.0 <= coverage.value <= 100.0)
  }

  /** 0 <= recommendation <= evidence coverage <= 100 wherever they are defined. */
  lemma RecommendationWithinCoverage(questions: seq<Question>, answers: seq<Answer>)
    requires Evaluate(questions, answers).Success?
    ensures var r := Evaluate(questions, answers).value;
            && r.ratedScoringWeight == r.attributedScoringWeight
            && PercentsBounded(r.recommendationPercent, r.evidenceCoveragePercent)
  {
    Accepted(questions, answers);
    var enabled := Active(questions);
    TotalsBounds(enabled, answers);
    SummaryBounded(TotalsOf(enabled, answers));
  }

  lemma SummaryBounded(t: Totals)
    requires t.rated == t.attributed && 0 <= t.earned <= 4 * t.rated && 0 <= t.rated <= t.total
    ensures PercentsBounded(Summarize(t).recommendationPercent, Summarize(t).evidenceCoveragePercent)
  {
    if t.total != 0 {
      PercentEnds(t.total);
      PercentMonotone(0, t.earned, t.total);
      PercentMonotone(t.earned, 4 * t.attributed, t.total);
      PercentMonotone(0, 4 * t.attributed, t.total);
      PercentMonotone(4 * t.attributed, 4 * t.total, t.total);
    }
  }

  // ------------------------------------------------------ order independence

  lemma AnswersReordered(answers: seq<Answer>, other: seq<Answer>, id: string)
    requires multiset(answers) == multiset(other)
    requires Distinct(Map(answers, (a: Answer) => a.questionId))
    ensures AnswerFor(answers, id) == AnswerFor(other, id)
  {
    var key := (a: Answer) => a.questionId;
    MapPermutation(answers, other, key);
    DistinctPermutation(Map(answers, key), Map(other, key));
    assert forall a :: a in answers <==> a in multiset(answers);
    assert forall a :: a in other <==> a in multiset(other);
    var found := AnswerFor(answers, id);
    if found.Some? {
      FindByKey(other, key, found.value, (a: Answer) => a.questionId == id);
    }
  }

  lemma QuestionsReordered(questions: seq<Question>, other: seq<Question>)
    requires multiset(questions) == multiset(other) && QuestionSetFault(questions).None?
    ensures QuestionSetFault(other).None?
  {
    forall i | 0 <= i < |other| ensures QuestionValid(other[i]) {
      assert other[i] in multiset(questions);
      var k :| 0 <= k < |questions| && questions[k] == other[i];
    }
    MapPermutation(questions, other, (q: Question) => q.id);
    DistinctPermutation(QuestionIds(questions), QuestionIds(other));
    FilterPermutation(questions, other, IsActive);
  }

  lemma TotalsReordered(s: seq<Question>, t: seq<Question>, f: Question -> int, g: Question -> int)
    requires multiset(s) == multiset(t) && forall q :: q in s ==> f(q) == g(q)
    ensures SumBy(s, f) == SumBy(t, g)
  {
    SumByCongruent(s, f, g);
    SumByPermutation(s, t, g);
  }

  lemma IdsReordered(s: seq<Question>, t: seq<Question>, p: Question -> bool, r: Question -> bool)
    requires multiset(s) == multiset(t) && forall q :: q in s ==> p(q) == r(q)
    ensures multiset(IdsWhere(s, p)) == multiset(IdsWhere(t, r))
  {
    FilterCongruent(s, p, r);
    FilterPermutation(s, t, r);
    MapPermutation(Filter(s, r), Filter(t, r), (q: Question) => q.id);
  }

  /** Same numbers, and the same ids in some order. */
  ghost predicate SameUpToOrder(a: Aggregate, b: Aggregate) {
    && a.recommendationPercent == b.recommendationPercent
    && a.evidenceCoveragePercent == b.evidenceCoveragePercent
    && a.totalScoringWeight == b.totalScoringWeight
    && a.ratedScoringWeight == b.ratedScoringWeight
    && a.attributedScoringWeight == b.attributedScoringWeight
    && multiset(a.mustHaveConflictIds) == multiset(b.mustHaveConflictIds)
    && multiset(a.unknownQuestionIds) == multiset(b.unknownQuestionIds)
    && multiset(a.partialQuestionIds) == multiset(b.partialQuestionIds)
    && multiset(a.unresolvedMustHaveIds) == multiset(b.unresolvedMustHaveIds)
  }

  lemma TotalsOrderIrrelevant(s: seq<Question>, t: seq<Question>, a: seq<Answer>, b: seq<Answer>)
    requires multiset(s) == multiset(t)
    requires forall q :: q in s ==> AnswerFor(a, q.id) == AnswerFor(b, q.id)
    ensures SameUpToOrder(Summarize(TotalsOf(s, a)), Summarize(TotalsOf(t, b)))
  {
    TotalsReordered(s, t, ScoringWeight, ScoringWeight);
    TotalsReordered(s, t, q => RatedWeight(q, a), q => RatedWeight(q, b));
    TotalsReordered(s, t, q => AttributedWeight(q, a), q => AttributedWeight(q, b));
    TotalsReordered(s, t, q => EarnedQuarters(q, a), q => EarnedQuarters(q, b));
    IdsReordered(s, t, q => IsConflict(q, a), q => IsConflict(q, b));
    IdsReordered(s, t, q => IsUnknown(q, a), q => IsUnknown(q, b));
    IdsReordered(s, t, q => IsPartial(q, a), q => IsPartial(q, b));
    IdsReordered(s, t, q => IsUnresolved(q, a), q => IsUnresolved(q, b));
  }

  lemma AnswersStillFit(s: seq<Question>, t: seq<Question>, answers: seq<Answer>, moved: seq<Answer>)
    requires multiset(s) == multiset(t) && multiset(answers) == multiset(moved)
    requires CoversExactly(s, answers) && AllAnswered(s, answers)
    ensures CoversExactly(t, moved) && FirstAnswerFault(t, moved).None?
    ensures forall q :: q in s ==> AnswerFor(answers, q.id) == AnswerFor(moved, q.id)
  {
    var key := (a: Answer) => a.questionId;
    MapPermutation(answers, moved, key);
    DistinctPermutation(Map(answers, key), Map(moved, key));
    assert |moved| == |multiset(moved)| == |answers|;
    assert |t| == |multiset(t)| == |s|;
    forall q | q in s ensures AnswerFor(answers, q.id) == AnswerFor(moved, q.id) {
      AnswersReordered(answers, moved, q.id);
    }
    forall q | q in t ensures AnswerFault(q, moved).None? {
      assert q in multiset(s);
    }
    NoFirstFault(t, moved);
  }

  /** Reordering questions or answers changes neither acceptance nor any number. */
  lemma OrderIrrelevant(questions: seq<Question>, other: seq<Question>, answers: seq<Answer>, moved: seq<Answer>)
    requires multiset(questions) == multiset(other) && multiset(answers) == multiset(moved)
    requires Evaluate(questions, answers).Success?
    ensures Evaluate(other, moved).Success?
    ensures SameUpToOrder(Evaluate(questions, answers).value, Evaluate(other, moved).value)
  {
    Accepted(questions, answers);
    QuestionsReordered(questions, other);
    FilterPermutation(questions, other, IsActive);
    AnswersStillFit(Active(questions), Active(other), answers, moved);
    TotalsOrderIrrelevant(Active(questions), Active(other), answers, moved);
  }

  /** Questions that are not active change nothing at all. */
  lemma InactiveIrrelevant(questions: seq<Question>, extra: seq<Question>, answers: seq<Answer>)
    requires Evaluate(questions, answers).Success?
    requires QuestionSetFault(questions + extra).None? && forall q :: q in extra ==> !q.active
    ensures Evaluate(questions + extra, answers) == Evaluate(questions, answers)
  {
    FilterAppend(questions, extra, IsActive);
    FilterNone(extra, IsActive);
    assert Active(questions) + [] == Active(questions);
  }

  // ----------------------------------------------------------- monotonicity

  /** `b` rates everything `a` rates, at least as high; what `a` leaves unknown `b` may resolve. */
  ghost predicate RaisedAnswers(questions: seq<Question>, a: seq<Answer>, b: seq<Answer>) {
    forall q :: q in Active(questions) ==>
      var x, y := AnswerFor(a, q.id), AnswerFor(b, q.id);
      x.Some? && y.Some? &&
      (x.value.alignment.Some? ==>
         y.value.alignment.Some? && x.value.alignment.value <= y.value.alignment.value)
  }

  lemma EarnedRaised(q: Question, a: seq<Answer>, b: seq<Answer>)
    requires AnswerFault(q, a).None? && AnswerFault(q, b).None? && q.weight >= 1
    requires AnswerFor(a, q.id).value.alignment.Some? ==>
               && AnswerFor(b, q.id).value.alignment.Some?
               && AnswerFor(a, q.id).value.alignment.value <= AnswerFor(b, q.id).value.alignment.value
    ensures RatedWeight(q, a) <= RatedWeight(q, b)
    ensures EarnedQuarters(q, a) <= EarnedQuarters(q, b)
  {
    EarnedShare(q, a);
    EarnedShare(q, b);
    var x, y := AnswerFor(a, q.id).value.alignment, AnswerFor(b, q.id).value.alignment;
    if x.Some? {
      assert ScoringWeight(q) * x.value <= ScoringWeight(q) * y.value;
    }
  }

  /** Raising an alignment, or resolving an unknown, never lowers a defined recommendation. */
  lemma RaisingNeverLowers(questions: seq<Question>, a: seq<Answer>, b: seq<Answer>)
    requires Evaluate(questions, a).Success? && Evaluate(questions, b).Success?
    requires RaisedAnswers(questions, a, b)
    requires Evaluate(questions, a).value.recommendationPercent.Some?
    ensures Evaluate(questions, b).value.recommendationPercent.Some?
    ensures Evaluate(questions, a).value.recommendationPercent.value
         <= Evaluate(questions, b).value.recommendationPercent.value
  {
    Accepted(questions, a);
    Accepted(questions, b);
    var enabled := Active(questions);
    TotalsBounds(enabled, a);
    forall q | q in enabled
      ensures RatedWeight(q, a) <= RatedWeight(q, b) && EarnedQuarters(q, a) <= EarnedQuarters(q, b)
    {
      EarnedRaised(q, a, b);
    }
    SumByMonotone(enabled, q => RatedWeight(q, a), q => RatedWeight(q, b));
    SumByMonotone(enabled, q => EarnedQuarters(q, a), q => EarnedQuarters(q, b));
    PercentMonotone(TotalsOf(enabled, a).earned, TotalsOf(enabled, b).earned, TotalsOf(enabled, a).total);
  }

  // ----------------------------------------------------------------- mirror

  function MirrorQuestion(q: Question): Question {
    q.(desired := if q.desired == Yes then No else Yes)
  }

  function MirrorAnswer(a: Answer): Answer {
    if a.alignment.Some? then a.(alignment := Some(4 - a.alignment.value)) else a
  }

  function MirrorQuestions(questions: seq<Question>): seq<Question> {
    Map(questions, MirrorQuestion)
  }

  function MirrorAnswers(answers: seq<Answer>): seq<Answer> {
    Map(answers, MirrorAnswer)
  }

  lemma MirroredAnswerFor(answers: seq<Answer>, id: string)
    ensures AnswerFor(MirrorAnswers(answers), id) ==
            if AnswerFor(answers, id).Some? then Some(MirrorAnswer(AnswerFor(answers, id).value)) else None
  {
    FindMap(answers, MirrorAnswer, (a: Answer) => a.questionId == id, (a: Answer) => a.questionId == id);
  }

  lemma MirroredQuestion(q: Question, answers: seq<Answer>)
    requires AnswerFault(q, answers).None?
    ensures var m, mirrored := MirrorQuestion(q), MirrorAnswers(answers);
            && AnswerFault(m, mirrored).None?
            && ScoringWeight(m) == ScoringWeight(q)
            && RatedWeight(m, mirrored) == RatedWeight(q, answers)
            && EarnedQuarters(m, mirrored) == 4 * RatedWeight(q, answers) - EarnedQuarters(q, answers)
  {
    hide AnswerFor;
    hide MirrorAnswers;
    MirroredAnswerFor(answers, q.id);
    var a := AnswerFor(answers, q.id).value;
    if a.alignment.Some? {
      MirroredShare(ScoringWeight(q), a.alignment.value);
    }
  }

  lemma MirroredShare(w: int, x: int)
    ensures w * (4 - x) == 4 * w - w * x
  {
  }

  lemma MirrorValid(q: Question)
    requires QuestionValid(q)
    ensures QuestionValid(MirrorQuestion(q))
  {
  }

  lemma MirrorIds(questions: seq<Question>)
    ensures QuestionIds(MirrorQuestions(questions)) == QuestionIds(questions)
    ensures Active(MirrorQuestions(questions)) == MirrorQuestions(Active(questions))
  {
    FilterMap(questions, MirrorQuestion, IsActive, IsActive);
  }

  lemma MirroredSet(questions: seq<Question>)
    requires QuestionSetFault(questions).None?
    ensures QuestionSetFault(MirrorQuestions(questions)).None?
  {
    forall i | 0 <= i < |questions| ensures QuestionValid(MirrorQuestions(questions)[i]) {
      MirrorValid(questions[i]);
    }
    MirrorIds(questions);
  }

  lemma MirroredTotals(enabled: seq<Question>, answers: seq<Answer>)
    requires AllAnswered(enabled, answers)
    ensures var t, u := TotalsOf(enabled, answers), TotalsOf(MirrorQuestions(enabled), MirrorAnswers(answers));
            u.total == t.total && u.rated == t.rated && u.earned == 4 * t.rated - t.earned
  {
    var mirrored := MirrorAnswers(answers);
    var rated, earned := q => RatedWeight(q, answers), q => EarnedQuarters(q, answers);
    var rest := q => EarnedQuarters(MirrorQuestion(q), mirrored);
    forall q | q in enabled
      ensures ScoringWeight(MirrorQuestion(q)) == ScoringWeight(q)
      ensures RatedWeight(MirrorQuestion(q), mirrored) == rated(q)
      ensures rest(q) == 4 * rated(q) + (-1) * earned(q)
    {
      MirroredQuestion(q, answers);
    }
    SumByMap(enabled, MirrorQuestion, ScoringWeight, ScoringWeight);
    SumByMap(enabled, MirrorQuestion, q => RatedWeight(q, mirrored), rated);
    SumByMap(enabled, MirrorQuestion, q => EarnedQuarters(q, mirrored), rest);
    SumByLinear(enabled, 4, rated, -1, earned, rest);
  }

  ghost predicate SharesCoverage(r: Aggregate, m: Aggregate) {
    && m.evidenceCoveragePercent == r.evidenceCoveragePercent
    && (r.recommendationPercent.Some? <==> m.recommendationPercent.Some?)
    && (r.recommendationPercent.Some? ==>
          && r.evidenceCoveragePercent.Some?
          && r.recommendationPercent.value + m.recommendationPercent.value == r.evidenceCoveragePercent.value)
  }

  lemma MirroredSummary(t: Totals, u: Totals)
    requires 0 <= t.total == u.total && t.rated == u.rated == t.attributed == u.attributed
    requires u.earned == 4 * t.rated - t.earned
    ensures SharesCoverage(Summarize(t), Summarize(u))
  {
    if t.total > 0 {
      PercentAdds(t.earned, u.earned, t.total);
    }
  }

  lemma MirrorEvaluates(questions: seq<Question>, answers: seq<Answer>)
    requires Evaluate(questions, answers).Success?
    ensures Evaluate(MirrorQuestions(questions), MirrorAnswers(answers)).Success?
  {
    Accepted(questions, answers);
    MirroredSet(questions);
    MirrorIds(questions);
    MirrorAccepted(Active(questions), answers);
  }

  /**
   Wanting the opposite of everything, with every alignment mirrored, is accepted too, and the two
   recommendations share out the evidence coverage.
   */
  lemma MirrorSharesCoverage(questions: seq<Question>, answers: seq<Answer>)
    requires Evaluate(questions, answers).Success?
    ensures Evaluate(MirrorQuestions(questions), MirrorAnswers(answers)).Success?
    ensures SharesCoverage(
      Evaluate(questions, answers).value, Evaluate(MirrorQuestions(questions), MirrorAnswers(answers)).value)
  {
    var enabled := Active(questions);
    MirrorEvaluates(questions, answers);
    MirrorIds(questions);
    Accepted(questions, answers);
    Accepted(MirrorQuestions(questions), MirrorAnswers(answers));
    MirroredTotals(enabled, answers);
    TotalsBounds(enabled, answers);
    TotalsBounds(MirrorQuestions(enabled), MirrorAnswers(answers));
    MirroredSummary(TotalsOf(enabled, answers), TotalsOf(MirrorQuestions(enabled), MirrorAnswers(answers)));
  }

  lemma MirrorAccepted(enabled: seq<Question>, answers: seq<Answer>)
    requires AllAnswered(enabled, answers) && CoversExactly(enabled, answers)
    ensures CoversExactly(MirrorQuestions(enabled), MirrorAnswers(answers))
    ensures FirstAnswerFault(MirrorQuestions(enabled), MirrorAnswers(answers)).None?
  {
    var key := (a: Answer) => a.questionId;
    assert Map(MirrorAnswers(answers), key) == Map(answers, key);
    var mirrored := MirrorQuestions(enabled);
    forall q | q in mirrored ensures AnswerFault(q, MirrorAnswers(answers)).None? {
      var i :| 0 <= i < |mirrored| && mirrored[i] == q;
      MirroredQuestion(enabled[i], answers);
    }
    NoFirstFault(mirrored, MirrorAnswers(answers));
  }

  // -------------------------------------------------------------- must-haves

  /** The active must-haves that are answered as desired, with confidence. */
  predicate IsSatisfied(q: Question, answers: seq<Answer>) {
    var a := AnswerFor(answers, q.id);
    && q.importance == MustHave && a.Some?
    && a.value.reply == Replied(q.desired) && a.value.confidence >= CONFIDENT
  }

  predicate IsMustHave(q: Question) {
    q.importance == MustHave
  }

  lemma OneOfThree(q: Question, answers: seq<Answer>)
    requires AnswerFault(q, answers).None?
    ensures (if IsConflict(q, answers) then 1 else 0) + (if IsUnresolved(q, answers) then 1 else 0)
            + (if IsSatisfied(q, answers) then 1 else 0) == (if IsMustHave(q) then 1 else 0)
  {
    hide AnswerFor;
  }

  /** Every active must-have is a conflict, unresolved or satisfied, and only one of the three. */
  lemma MustHavesSplit(questions: seq<Question>, answers: seq<Answer>)
    requires Evaluate(questions, answers).Success?
    ensures forall q :: q in Active(questions) ==>
              (if IsConflict(q, answers) then 1 else 0) + (if IsUnresolved(q, answers) then 1 else 0)
              + (if IsSatisfied(q, answers) then 1 else 0) == (if IsMustHave(q) then 1 else 0)
    ensures var r := Evaluate(questions, answers).value;
            |r.mustHaveConflictIds| + |r.unresolvedMustHaveIds| + Count(Active(questions), q => IsSatisfied(q, answers))
            == Count(Active(questions), IsMustHave)
  {
    hide Evaluate;
    hide AnswerFault;
    hide IsConflict;
    hide IsUnresolved;
    hide IsSatisfied;
    hide IsMustHave;
    Accepted(questions, answers);
    var enabled := Active(questions);
    var conflict, open := q => IsConflict(q, answers), q => IsUnresolved(q, answers);
    var satisfied := q => IsSatisfied(q, answers);
    forall q | q in enabled
      ensures (if IsConflict(q, answers) then 1 else 0) + (if IsUnresolved(q, answers) then 1 else 0)
              + (if IsSatisfied(q, answers) then 1 else 0) == (if IsMustHave(q) then 1 else 0)
    {
      OneOfThree(q, answers);
    }
    var either := q => IsConflict(q, answers) || IsUnresolved(q, answers);
    CountSplit(enabled, conflict, open, either);
    CountSplit(enabled, either, satisfied, IsMustHave);
  }
}
