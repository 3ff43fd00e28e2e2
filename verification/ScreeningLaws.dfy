/**
 The aggregate built up question by question, from the fields of questions and answers alone: what the empty set
 gives, when one more answered question is accepted, and what it adds.
 */
module ScreeningLaws {
  import opened Sequences
  import opened JsText
  import opened ScreeningQuestions
  import opened ScreeningTheorems
  import P = QuestionScreening

  /** Nothing asked, nothing known. */
  lemma EmptySet()
    ensures Evaluate([], []) == Success(Aggregate(None, None, 0, 0, 0, [], [], [], []))
  {
    assert Filter([], IsActive) == [];
    assert TotalsOf([], []) == Totals(0, 0, 0, 0, [], [], [], []);
    assert QuestionSetFault([]).None?;
  }

  // ------------------------------------------------------- appending to a list

  lemma {:induction false} FindAppend<T>(s: seq<T>, x: T, p: T -> bool)
    ensures Find(s + [x], p) == if Find(s, p).Some? then Find(s, p) else if p(x) then Some(x) else None
  {
    if s == [] {
      assert s + [x] == [x] && [x][1..] == [];
    } else {
      assert (s + [x])[1..] == s[1..] + [x];
      FindAppend(s[1..], x, p);
    }
  }

  /** An answer to another question changes no lookup. */
  lemma AnswerForAppend(answers: seq<Answer>, a: Answer, id: string)
    ensures AnswerFor(answers + [a], id) ==
            if AnswerFor(answers, id).Some? then AnswerFor(answers, id)
            else if a.questionId == id then Some(a) else None
  {
    FindAppend(answers, a, (x: Answer) => x.questionId == id);
  }

  lemma {:induction false} SameFaults(enabled: seq<Question>, answers: seq<Answer>, a: Answer)
    requires forall q :: q in enabled ==> AnswerFor(answers, q.id).Some? || a.questionId != q.id
    ensures FirstAnswerFault(enabled, answers + [a]) == FirstAnswerFault(enabled, answers)
  {
    if enabled == [] {
    } else {
      AnswerForAppend(answers, a, enabled[0].id);
      SameFaults(enabled[1..], answers, a);
    }
  }

  lemma {:induction false} SameSums(enabled: seq<Question>, answers: seq<Answer>, a: Answer)
    requires forall q :: q in enabled ==> AnswerFor(answers, q.id).Some? || a.questionId != q.id
    ensures TotalsOf(enabled, answers + [a]) == TotalsOf(enabled, answers)
  {
    var after := answers + [a];
    forall q | q in enabled ensures AnswerFor(after, q.id) == AnswerFor(answers, q.id) {
      AnswerForAppend(answers, a, q.id);
    }
    SumByCongruent(enabled, q => RatedWeight(q, after), q => RatedWeight(q, answers));
    SumByCongruent(enabled, q => AttributedWeight(q, after), q => AttributedWeight(q, answers));
    SumByCongruent(enabled, q => EarnedQuarters(q, after), q => EarnedQuarters(q, answers));
    FilterCongruent(enabled, q => IsConflict(q, after), q => IsConflict(q, answers));
    FilterCongruent(enabled, q => IsUnknown(q, after), q => IsUnknown(q, answers));
    FilterCongruent(enabled, q => IsPartial(q, after), q => IsPartial(q, answers));
    FilterCongruent(enabled, q => IsUnresolved(q, after), q => IsUnresolved(q, answers));
  }

  // -------------------------------------------------------- acceptable questions

  /** What a stored question has to look like. */
  predicate Acceptable(q: Question) {
    && (exists c :: c in q.text && !IsSpace(c)) && |q.text| <= 2000
    && (forall c :: c in q.text && (c <= '\U{001F}' || c == '\U{007F}') ==> c == '\t' || c == '\n' || c == '\r')
    && 1 <= q.weight <= 10
    && q.id != "" && Trim(q.id) == q.id && |q.id| <= 200
    && (forall c :: c in q.id ==> '\U{001F}' < c && c != '\U{007F}')
    && |q.revision| == 64
    && (forall c :: c in q.revision ==> '0' <= c <= '9' || 'a' <= c <= 'f')
  }

  lemma AcceptableIsValid(q: Question)
    ensures QuestionValid(q) <==> Acceptable(q)
  {
    hide Trim;
    if !Blank(q.text) {
      var i :| 0 <= i < |q.text| && !IsSpace(q.text[i]);
      assert q.text[i] in q.text;
    }
    if Blank(q.text) {
      forall c | c in q.text ensures IsSpace(c) {
        var i :| 0 <= i < |q.text| && q.text[i] == c;
      }
    }
  }

  /** A question set stays valid exactly as long as each new question is acceptable, new and not one too many. */
  lemma AppendedSetValidIff(questions: seq<Question>, q: Question)
    ensures QuestionSetFault(questions + [q]).None? <==>
            && QuestionSetFault(questions).None? && Acceptable(q) && q.id !in QuestionIds(questions)
            && (q.active ==> Count(questions, (x: Question) => x.active) < 20)
  {
    hide QuestionValid;
    hide Acceptable;
    hide Distinct;
    hide QuestionSetFault;
    hide Filter;
    AcceptableIsValid(q);
    SetFaultIff(questions);
    SetFaultIff(questions + [q]);
    MapAppend(questions, [q], (x: Question) => x.id);
    assert QuestionIds(questions + [q]) == QuestionIds(questions) + [q.id];
    DistinctAppend(QuestionIds(questions), q.id);
    FilterAppend(questions, [q], IsActive);
    FilterCongruent(questions, IsActive, (x: Question) => x.active);
    OneActive(q);
    ValidAppended(questions, q);
  }

  lemma SetFaultIff(questions: seq<Question>)
    ensures QuestionSetFault(questions).None? <==>
            && (forall i :: 0 <= i < |questions| ==> QuestionValid(questions[i]))
            && Distinct(QuestionIds(questions)) && Count(questions, IsActive) <= 20
  {
    hide QuestionValid;
    hide Distinct;
    hide QuestionIds;
    hide Count;
  }

  lemma ValidAppended(questions: seq<Question>, q: Question)
    ensures (forall i :: 0 <= i < |questions + [q]| ==> QuestionValid((questions + [q])[i])) <==>
            QuestionValid(q) && forall i :: 0 <= i < |questions| ==> QuestionValid(questions[i])
  {
    hide QuestionValid;
    var longer := questions + [q];
    assert forall i :: 0 <= i < |questions| ==> longer[i] == questions[i];
    assert longer[|questions|] == q;
  }

  lemma OneActive(q: Question)
    ensures Filter([q], IsActive) == if q.active then [q] else []
  {
    assert [q][1..] == [];
  }

  // ---------------------------------------------------------- acceptable answers

  /** What the answer to a question has to look like: of its revision, confident within bounds, and grounded. */
  predicate Answers(a: Answer, q: Question) {
    && a.questionId == q.id && a.questionRevision == q.revision && 0.0 <= a.confidence <= 1.0
    && match a.reply
       case Unknown => a.alignment == None
       case Partial =>
         && q.kind == FitKind && a.sourceCitations != [] && a.candidateCitations != []
         && (a.alignment == Some(1) || a.alignment == Some(2) || a.alignment == Some(3))
       case Replied(polarity) =>
         && a.sourceCitations != [] && (q.kind == FitKind ==> a.candidateCitations != [])
         && a.alignment == Some(if polarity == q.desired then 4 else 0)
  }

  lemma AnswersIffNoFault(a: Answer, q: Question, answers: seq<Answer>)
    requires AnswerFor(answers, q.id) == Some(a)
    ensures AnswerFault(q, answers).None? <==> Answers(a, q)
  {
    assert a.questionId == q.id;
  }

  ghost predicate Appended(questions: seq<Question>, answers: seq<Answer>, q: Question, a: Answer) {
    && Evaluate(questions, answers).Success?
    && QuestionSetFault(questions + [q]).None? && q.active && a.questionId == q.id
  }

  lemma SetIdsDistinct(questions: seq<Question>)
    requires QuestionSetFault(questions).None?
    ensures Distinct(QuestionIds(Active(questions)))
  {
    hide QuestionValid;
    FilterKeys(questions, IsActive, (x: Question) => x.id);
  }

  lemma OthersAnswered(questions: seq<Question>, answers: seq<Answer>, q: Question)
    requires AllAnswered(Active(questions), answers) && q.id !in QuestionIds(questions)
    ensures forall x :: x in Active(questions) ==> x.id != q.id && AnswerFor(answers, x.id).Some?
    ensures q.id !in QuestionIds(Active(questions))
  {
    var enabled := Active(questions);
    forall x | x in enabled ensures x.id != q.id && AnswerFor(answers, x.id).Some? {
      var i :| 0 <= i < |questions| && questions[i] == x;
      assert QuestionIds(questions)[i] == x.id;
      assert AnswerFault(x, answers).None?;
    }
    forall k | 0 <= k < |enabled| ensures QuestionIds(enabled)[k] != q.id {
      assert enabled[k] in enabled;
    }
  }

  lemma NoAnswerYet(enabled: seq<Question>, answers: seq<Answer>, id: string)
    requires CoversExactly(enabled, answers) && Distinct(QuestionIds(enabled))
    requires (forall x :: x in enabled ==> AnswerFor(answers, x.id).Some?) && id !in QuestionIds(enabled)
    ensures AnswerFor(answers, id).None?
    ensures id !in Map(answers, (x: Answer) => x.questionId)
  {
    hide Distinct;
    AllAnswersUsed(enabled, answers);
    var ids := Map(answers, (x: Answer) => x.questionId);
    forall b | b in answers ensures b.questionId in ids {
      var i :| 0 <= i < |answers| && answers[i] == b;
      assert ids[i] == b.questionId;
    }
  }

  lemma FreshId(questions: seq<Question>, answers: seq<Answer>, q: Question, a: Answer)
    requires Appended(questions, answers, q, a)
    ensures forall x :: x in Active(questions) ==> x.id != q.id && AnswerFor(answers, x.id).Some?
    ensures AnswerFor(answers, q.id).None? && q.id !in Map(answers, (x: Answer) => x.questionId)
    ensures Active(questions + [q]) == Active(questions) + [q]
  {
    hide QuestionValid;
    hide Acceptable;
    hide QuestionSetFault;
    hide CoversExactly;
    hide AllAnswered;
    Accepted(questions, answers);
    AppendedSetValidIff(questions, q);
    SetIdsDistinct(questions);
    OthersAnswered(questions, answers, q);
    NoAnswerYet(Active(questions), answers, q.id);
    FilterAppend(questions, [q], IsActive);
    OneActive(q);
  }

  /** As many distinct answers as questions, and one for each: no answer is for something else. */
  lemma AllAnswersUsed(enabled: seq<Question>, answers: seq<Answer>)
    requires CoversExactly(enabled, answers) && Distinct(QuestionIds(enabled))
    requires forall q :: q in enabled ==> AnswerFor(answers, q.id).Some?
    ensures forall id :: id in Map(answers, (x: Answer) => x.questionId) ==> id in QuestionIds(enabled)
  {
    var ids, answered := QuestionIds(enabled), Map(answers, (x: Answer) => x.questionId);
    forall id | id in ids ensures id in answered {
      var k :| 0 <= k < |ids| && ids[k] == id;
      assert enabled[k] in enabled;
      var b := AnswerFor(answers, id).value;
      var i :| 0 <= i < |answers| && answers[i] == b;
      assert answered[i] == id;
    }
    Pigeonhole(ids, answered);
  }

  // ------------------------------------------------------------ one more answer

  lemma AppendedCovers(enabled: seq<Question>, answers: seq<Answer>, q: Question, a: Answer)
    requires CoversExactly(enabled, answers) && a.questionId !in Map(answers, (x: Answer) => x.questionId)
    ensures CoversExactly(enabled + [q], answers + [a])
  {
    hide Distinct;
    var ids := Map(answers, (x: Answer) => x.questionId);
    MapAppend(answers, [a], (x: Answer) => x.questionId);
    assert Map([a], (x: Answer) => x.questionId) == [a.questionId];
    DistinctAppend(ids, a.questionId);
  }

  lemma AppendedFault(enabled: seq<Question>, answers: seq<Answer>, q: Question, a: Answer)
    requires forall x :: x in enabled ==> x.id != q.id && AnswerFor(answers, x.id).Some?
    requires AnswerFor(answers, q.id).None? && a.questionId == q.id && FirstAnswerFault(enabled, answers).None?
    ensures FirstAnswerFault(enabled + [q], answers + [a]).None? <==> Answers(a, q)
  {
    hide Answers;
    hide AnswerFault;
    SameFaults(enabled, answers, a);
    FirstFaultAppend(enabled, [q], answers + [a]);
    AnswerForAppend(answers, a, q.id);
    AnswersIffNoFault(a, q, answers + [a]);
    assert [q][1..] == [];
  }

  /** To an accepted set, one more active question with an answer of its own is accepted exactly when they fit. */
  lemma AppendedAcceptedIff(questions: seq<Question>, answers: seq<Answer>, q: Question, a: Answer)
    requires Appended(questions, answers, q, a)
    ensures Evaluate(questions + [q], answers + [a]).Success? <==> Answers(a, q)
  {
    hide QuestionSetFault;
    hide CoversExactly;
    hide Answers;
    hide AllAnswered;
    hide TotalsOf;
    FreshId(questions, answers, q, a);
    Accepted(questions, answers);
    NoFirstFault(Active(questions), answers);
    AppendedCovers(Active(questions), answers, q, a);
    AppendedFault(Active(questions), answers, q, a);
  }

  function Scored(q: Question): int {
    match q.importance
    case MustHave => q.weight
    case Preference => q.weight
    case Informational => 0
  }

  /** What a recommendation stands for: a share of the total, none if there is no recommendation. */
  function Points(r: Aggregate): real {
    if r.recommendationPercent.Some? then r.recommendationPercent.value * r.totalScoringWeight as real else 0.0
  }

  lemma PointsEarned(t: Totals)
    requires t.rated == 0 ==> t.earned == 0
    requires t.total == 0 ==> t.rated == 0
    ensures Points(Summarize(t)) == 25.0 * t.earned as real
  {
    if t.total != 0 && t.rated != 0 {
      PercentTimes(t.earned, t.total);
    }
  }

  lemma PercentTimes(quarters: int, total: int)
    requires total != 0
    ensures Percent(quarters, total) * total as real == 25.0 * quarters as real
  {
    var x, n := 100.0 * (quarters as real / 4.0), total as real;
    assert x / n * n == x;
  }

  /** The running totals after one more question, by its fields and its answer's. */
  lemma AppendedTotals(enabled: seq<Question>, answers: seq<Answer>, q: Question, a: Answer)
    requires forall x :: x in enabled ==> x.id != q.id && AnswerFor(answers, x.id).Some?
    requires AnswerFor(answers, q.id).None? && Answers(a, q)
    ensures var t, u := TotalsOf(enabled, answers), TotalsOf(enabled + [q], answers + [a]);
            && u.total == t.total + Scored(q)
            && u.rated == t.rated + (if a.reply == Unknown then 0 else Scored(q))
            && u.attributed == t.attributed + (if a.reply == Unknown then 0 else Scored(q))
            && u.earned == t.earned + Scored(q) * (if a.alignment.Some? then a.alignment.value else 0)
  {
    hide IdsWhere;
    hide TotalsOf;
    SameSums(enabled, answers, a);
    TotalsStep(enabled + [q], |enabled|, answers + [a]);
    assert (enabled + [q])[..|enabled|] == enabled;
    assert (enabled + [q])[..|enabled| + 1] == enabled + [q];
    AnswerForAppend(answers, a, q.id);
  }

  lemma AppendedIds(enabled: seq<Question>, answers: seq<Answer>, q: Question, a: Answer)
    requires forall x :: x in enabled ==> x.id != q.id && AnswerFor(answers, x.id).Some?
    requires AnswerFor(answers, q.id).None? && Answers(a, q)
    ensures var t, u := TotalsOf(enabled, answers), TotalsOf(enabled + [q], answers + [a]);
            var must := q.importance == MustHave;
            var against := a.reply == Replied(if q.desired == Yes then No else Yes);
            && u.unknowns == t.unknowns + (if a.reply == Unknown then [q.id] else [])
            && u.partials == t.partials + (if a.reply == Partial then [q.id] else [])
            && u.unresolved == t.unresolved +
               (if must && (a.reply == Unknown || a.reply == Partial || a.confidence < 0.85) then [q.id] else [])
            && u.conflicts == t.conflicts + (if must && against && a.confidence >= 0.85 then [q.id] else [])
  {
    hide TotalsOf;
    SameSums(enabled, answers, a);
    TotalsStep(enabled + [q], |enabled|, answers + [a]);
    assert (enabled + [q])[..|enabled|] == enabled;
    assert (enabled + [q])[..|enabled| + 1] == enabled + [q];
    AnswerForAppend(answers, a, q.id);
  }

  /**
   What one more answered question adds: its weight to the total unless it is informational, as much to the rated
   weight unless the answer is unknown, and a quarter of its weight for each step of alignment to the points.
   */
  lemma AppendedNumbers(questions: seq<Question>, answers: seq<Answer>, q: Question, a: Answer)
    requires Appended(questions, answers, q, a) && Evaluate(questions + [q], answers + [a]).Success?
    ensures var r, s := Evaluate(questions, answers).value, Evaluate(questions + [q], answers + [a]).value;
            var weight := if q.importance == Informational then 0 else q.weight;
            && s.totalScoringWeight == r.totalScoringWeight + weight
            && s.ratedScoringWeight == r.ratedScoringWeight + (if a.reply == Unknown then 0 else weight)
            && s.attributedScoringWeight == r.attributedScoringWeight + (if a.reply == Unknown then 0 else weight)
            && Points(s) == Points(r) + 25.0 * (weight * if a.alignment.Some? then a.alignment.value else 0) as real
            && (s.recommendationPercent.Some? <==> s.ratedScoringWeight > 0)
            && (s.evidenceCoveragePercent.Some? <==> s.totalScoringWeight > 0)
  {
    hide QuestionSetFault;
    hide CoversExactly;
    hide Answers;
    hide TotalsOf;
    hide Points;
    hide Evaluate;
    hide AllAnswered;
    FreshId(questions, answers, q, a);
    AppendedAcceptedIff(questions, answers, q, a);
    Accepted(questions, answers);
    Accepted(questions + [q], answers + [a]);
    var enabled := Active(questions);
    AppendedTotals(enabled, answers, q, a);
    TotalsBounds(enabled, answers);
    TotalsBounds(enabled + [q], answers + [a]);
    PointsEarned(TotalsOf(enabled, answers));
    PointsEarned(TotalsOf(enabled + [q], answers + [a]));
  }

  /** The id lists gain the new question exactly for its own answer: who conflicts, is unknown, partial or open. */
  lemma AppendedLists(questions: seq<Question>, answers: seq<Answer>, q: Question, a: Answer)
    requires Appended(questions, answers, q, a) && Evaluate(questions + [q], answers + [a]).Success?
    ensures var r, s := Evaluate(questions, answers).value, Evaluate(questions + [q], answers + [a]).value;
            var must := q.importance == MustHave;
            var against := a.reply == Replied(if q.desired == Yes then No else Yes);
            && s.unknownQuestionIds == r.unknownQuestionIds + (if a.reply == Unknown then [q.id] else [])
            && s.partialQuestionIds == r.partialQuestionIds + (if a.reply == Partial then [q.id] else [])
            && s.unresolvedMustHaveIds == r.unresolvedMustHaveIds +
               (if must && (a.reply == Unknown || a.reply == Partial || a.confidence < 0.85) then [q.id] else [])
            && s.mustHaveConflictIds == r.mustHaveConflictIds +
               (if must && against && a.confidence >= 0.85 then [q.id] else [])
  {
    hide QuestionSetFault;
    hide CoversExactly;
    hide Answers;
    hide TotalsOf;
    hide Evaluate;
    hide AllAnswered;
    FreshId(questions, answers, q, a);
    AppendedAcceptedIff(questions, answers, q, a);
    Accepted(questions, answers);
    Accepted(questions + [q], answers + [a]);
    AppendedIds(Active(questions), answers, q, a);
  }

  /** The coverage is the attributed share of the total, in percent. */
  lemma CoverageMeans(questions: seq<Question>, answers: seq<Answer>)
    requires Evaluate(questions, answers).Success?
    ensures var r := Evaluate(questions, answers).value;
            && (r.evidenceCoveragePercent.Some? <==> r.totalScoringWeight != 0)
            && (r.evidenceCoveragePercent.Some? ==>
                  r.evidenceCoveragePercent.value * r.totalScoringWeight as real
                  == 100.0 * r.attributedScoringWeight as real)
  {
    hide TotalsOf;
    hide Evaluate;
    hide Summarize;
    hide AllAnswered;
    Accepted(questions, answers);
    CoverageOf(TotalsOf(Active(questions), answers));
  }

  lemma CoverageOf(t: Totals)
    ensures var r := Summarize(t);
            && (r.evidenceCoveragePercent.Some? <==> r.totalScoringWeight != 0)
            && (r.evidenceCoveragePercent.Some? ==>
                  r.evidenceCoveragePercent.value * r.totalScoringWeight as real
                  == 100.0 * r.attributedScoringWeight as real)
  {
    hide Percent;
    if t.total != 0 {
      PercentTimes(4 * t.attributed, t.total);
    }
  }

  // ------------------------------------------------------------ which error is met

  ghost predicate AllAcceptable(questions: seq<Question>) {
    forall i :: 0 <= i < |questions| ==> Acceptable(questions[i])
  }

  ghost predicate SameIdTwice(questions: seq<Question>) {
    exists i, j :: 0 <= i < j < |questions| && questions[i].id == questions[j].id
  }

  ghost predicate AnsweredTwice(answers: seq<Answer>) {
    exists i, j :: 0 <= i < j < |answers| && answers[i].questionId == answers[j].questionId
  }

  /** The question set fails first: by a question, by a repeated id, by too many active ones. */
  lemma SetFaultsMean(questions: seq<Question>, answers: seq<Answer>)
    ensures var r := Evaluate(questions, answers);
            var active := Count(questions, (q: Question) => q.active);
            && (r == Failure(InvalidQuestion) <==> !AllAcceptable(questions))
            && (r == Failure(DuplicateQuestions) <==> AllAcceptable(questions) && SameIdTwice(questions))
            && (r == Failure(TooManyActive) <==>
                  AllAcceptable(questions) && !SameIdTwice(questions) && active > 20)
            && (r == Failure(IncompleteAnswers) <==>
                  && AllAcceptable(questions) && !SameIdTwice(questions) && active <= 20
                  && (|answers| != active || AnsweredTwice(answers)))
  {
    hide QuestionValid;
    hide Acceptable;
    hide TotalsOf;
    forall q: Question ensures QuestionValid(q) <==> Acceptable(q) {
      AcceptableIsValid(q);
    }
    var ids, answered := QuestionIds(questions), Map(answers, (a: Answer) => a.questionId);
    assert Distinct(ids) <==> !SameIdTwice(questions) by {
      assert forall i :: 0 <= i < |questions| ==> ids[i] == questions[i].id;
    }
    assert Distinct(answered) <==> !AnsweredTwice(answers) by {
      assert forall i :: 0 <= i < |answers| ==> answered[i] == answers[i].questionId;
    }
    FilterCongruent(questions, IsActive, (q: Question) => q.active);
    AnswerFaultKinds(Filter(questions, IsActive), answers);
  }

  lemma {:induction false} AnswerFaultKinds(enabled: seq<Question>, answers: seq<Answer>)
    ensures FirstAnswerFault(enabled, answers) in [None, Some(InvalidAnswer), Some(UngroundedRating)]
  {
    if enabled == [] {
    } else {
      AnswerFaultKinds(enabled[1..], answers);
    }
  }

  /** An answer that is stale or malformed, whatever it is grounded on. */
  predicate Misfit(a: Answer, q: Question) {
    || a.questionRevision != q.revision || (q.kind == SourceKind && a.reply == Partial)
    || a.confidence < 0.0 || a.confidence > 1.0
    || (a.reply == Unknown && a.alignment != None)
    || (a.reply != Unknown && (a.alignment == None || a.alignment.value < 0 || a.alignment.value > 4))
  }

  /** The first question, in list order, whose answer will not do. */
  ghost predicate FirstUnfit(enabled: seq<Question>, answers: seq<Answer>, k: nat) {
    && k < |enabled| && !Fits(enabled[k], answers)
    && forall j :: 0 <= j < k ==> Fits(enabled[j], answers)
  }

  ghost predicate Fits(q: Question, answers: seq<Answer>) {
    var a := AnswerFor(answers, q.id); a.Some? && Answers(a.value, q)
  }

  lemma FitsIff(q: Question, answers: seq<Answer>)
    ensures Fits(q, answers) <==> AnswerFault(q, answers).None?
    ensures AnswerFault(q, answers) == Some(InvalidAnswer) <==>
            AnswerFor(answers, q.id).None? || Misfit(AnswerFor(answers, q.id).value, q)
  {
    if AnswerFor(answers, q.id).Some? {
      AnswersIffNoFault(AnswerFor(answers, q.id).value, q, answers);
    }
  }

  lemma {:induction false} FirstFaultMeans(enabled: seq<Question>, answers: seq<Answer>, k: nat)
    requires FirstUnfit(enabled, answers, k)
    ensures var a := AnswerFor(answers, enabled[k].id);
            FirstAnswerFault(enabled, answers) ==
            Some(if a.None? || Misfit(a.value, enabled[k]) then InvalidAnswer else UngroundedRating)
    decreases k
  {
    hide Fits;
    hide AnswerFault;
    hide Misfit;
    FitsIff(enabled[0], answers);
    if k == 0 {
      FaultIsOneOfTwo(enabled[0], answers);
    } else {
      assert Fits(enabled[0], answers);
      forall j | 0 <= j < k - 1 ensures Fits(enabled[1..][j], answers) {
        assert Fits(enabled[j + 1], answers);
      }
      FirstFaultMeans(enabled[1..], answers, k - 1);
    }
  }

  lemma FaultIsOneOfTwo(q: Question, answers: seq<Answer>)
    ensures AnswerFault(q, answers) in [None, Some(InvalidAnswer), Some(UngroundedRating)]
  {
  }

  /** Behind the question set, the first answer that will not do decides: malformed or stale, or else ungrounded. */
  lemma AnswerFaultsMean(questions: seq<Question>, answers: seq<Answer>, k: nat)
    requires QuestionSetFault(questions).None? && CoversExactly(Active(questions), answers)
    requires FirstUnfit(Active(questions), answers, k)
    ensures var a := AnswerFor(answers, Active(questions)[k].id);
            Evaluate(questions, answers) ==
            Failure(if a.None? || Misfit(a.value, Active(questions)[k]) then InvalidAnswer else UngroundedRating)
  {
    hide TotalsOf;
    hide FirstUnfit;
    hide CoversExactly;
    hide QuestionSetFault;
    FirstFaultMeans(Active(questions), answers, k);
  }

  // ------------------------------------------------------------- stored projections

  predicate Excerpt(c: SourceCitation) {
    |c.text| > 0 && c.start >= 0 && c.end == c.start + |c.text|
  }

  predicate ShareOrNone(x: Option<real>) {
    x == None || 0.0 <= x.value <= 1.0
  }

  ghost predicate RoleRules(role: P.RolePreScreen, answers: seq<Answer>) {
    && |role.targetRoles| > 0 && (forall i :: 0 <= i < |role.targetRoles| ==> |role.targetRoles[i]| > 0)
    && 0.0 <= role.confidence <= 1.0 && |answers| == 0
    && (role.outcome == P.Unrelated ==> role.confidence >= 0.95)
  }

  ghost predicate AnswerRules(a: Answer) {
    && ShareOrNone(a.attributionConfidence)
    && (forall c :: c in a.sourceCitations ==> |c.id| > 0 && Excerpt(c))
    && (forall c :: c in a.candidateCitations ==> |c.id| > 0 && |c.text| > 0)
  }

  ghost predicate SkillRules(m: P.SkillMatch) {
    && (exists i :: 0 <= i < |m.requirement| && !IsSpace(m.requirement[i]))
    && ShareOrNone(m.attributionConfidence) && 0.0 <= m.confidence <= 1.0 && Excerpt(m.sourceCitation)
    && (forall c :: c in m.candidateCitations ==> |c.id| > 0 && |c.text| > 0)
    && (m.status != P.SkillUnknown ==> m.assessed && m.confidence >= 0.85 && |m.candidateCitations| > 0)
    && (!m.assessed ==> |m.candidateCitations| == 0)
  }

  ghost predicate ProjectionRules(v: P.Projection) {
    && v.sourceCurrent && AllAcceptable(v.questions)
    && (forall i :: 0 <= i < |v.answers| ==> AnswerRules(v.answers[i]))
    && (v.skillMatches.Some? ==>
          forall i :: 0 <= i < |v.skillMatches.value| ==> SkillRules(v.skillMatches.value[i]))
    && (if v.rolePreScreen.Some? then
          RoleRules(v.rolePreScreen.value, v.answers)
          && v.aggregate == Aggregate(None, None, 0, 0, 0, [], [], [], [])
        else Evaluate(v.questions, v.answers) == Success(v.aggregate))
  }

  lemma RoleIff(role: P.RolePreScreen, answers: seq<Answer>)
    ensures RoleRules(role, answers) <==> P.RoleValid(role, answers)
  {
    var roles := role.targetRoles;
    assert "" in roles <==> exists i :: 0 <= i < |roles| && roles[i] == "";
  }

  lemma AnswerIff(a: Answer)
    ensures AnswerRules(a) <==> P.AnswerPresentable(a)
  {
  }

  lemma SkillIff(m: P.SkillMatch)
    ensures SkillRules(m) <==> P.SkillMatchValid(m)
  {
  }

  lemma SkillsIff(matches: seq<P.SkillMatch>)
    ensures (forall i :: 0 <= i < |matches| ==> SkillRules(matches[i])) <==>
            forall m :: m in matches ==> P.SkillMatchValid(m)
  {
    hide SkillRules;
    hide P.SkillMatchValid;
    forall m: P.SkillMatch ensures SkillRules(m) <==> P.SkillMatchValid(m) {
      SkillIff(m);
    }
  }

  /** A stored projection is accepted exactly when it keeps these rules. */
  lemma ProjectionAcceptedIff(v: P.Projection)
    ensures P.ProjectionAccepted(v) <==> ProjectionRules(v)
  {
    hide Evaluate;
    hide QuestionValid;
    hide Acceptable;
    hide RoleRules;
    hide P.RoleValid;
    hide AnswerRules;
    hide P.AnswerPresentable;
    hide SkillRules;
    hide P.SkillMatchValid;
    forall q: Question ensures QuestionValid(q) <==> Acceptable(q) {
      AcceptableIsValid(q);
    }
    forall a: Answer ensures AnswerRules(a) <==> P.AnswerPresentable(a) {
      AnswerIff(a);
    }
    if v.skillMatches.Some? {
      SkillsIff(v.skillMatches.value);
    }
    if v.rolePreScreen.Some? {
      RoleIff(v.rolePreScreen.value, v.answers);
      EmptySet();
      assert P.RoleValid(v.rolePreScreen.value, v.answers) ==> v.answers == [] by {
        NoAnswers(v);
      }
    }
  }

  lemma NoAnswers(v: P.Projection)
    requires v.rolePreScreen.Some?
    ensures P.RoleValid(v.rolePreScreen.value, v.answers) ==> v.answers == []
  {
  }

  /** What a record ranks by: the numbers of an accepted projection, none otherwise; and whether it is screened. */
  lemma RankMeans(record: P.ScreeningRecord)
    ensures var rank, stored := P.ScreeningRank(record), record.projection;
            var shown := !record.statusUnknown && stored.Some? && ProjectionRules(stored.value);
            && (rank.enabled <==>
                  if record.enabledFlag.Some? then record.enabledFlag.value else record.statusUnknown || stored.Some?)
            && (shown ==>
                  && rank.recommendationPercent == stored.value.aggregate.recommendationPercent
                  && rank.evidenceCoveragePercent == stored.value.aggregate.evidenceCoveragePercent
                  && rank.conflictCount == |stored.value.aggregate.mustHaveConflictIds|)
            && (!shown ==>
                  rank.recommendationPercent == None && rank.evidenceCoveragePercent == None && rank.conflictCount == 0)
  {
    hide ProjectionRules;
    hide P.ProjectionAccepted;
    if record.projection.Some? {
      ProjectionAcceptedIff(record.projection.value);
    }
  }
}
