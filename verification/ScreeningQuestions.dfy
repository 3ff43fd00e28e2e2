/** Screening questions, their validation, and the weighted aggregate of one answer per active question. */
module ScreeningQuestions {
  import opened Sequences
  import opened JsText

  datatype Kind = SourceKind | FitKind
  datatype Importance = MustHave | Preference | Informational
  datatype Polarity = Yes | No
  datatype Reply = Replied(polarity: Polarity) | Partial | Unknown

  datatype Question = Question(
    id: string, revision: string, text: string, kind: Kind, importance: Importance,
    desired: Polarity, weight: int, active: bool)

  datatype SourceCitation = SourceCitation(id: string, text: string, start: int, end: int)
  datatype CandidateCitation = CandidateCitation(id: string, title: string, kind: string, text: string)

  datatype Answer = Answer(
    questionId: string, questionRevision: string, reply: Reply, alignment: Option<int>, confidence: real,
    sourceCitations: seq<SourceCitation>, candidateCitations: seq<CandidateCitation>,
    attributionConfidence: Option<real>)

  datatype Aggregate = Aggregate(
    recommendationPercent: Option<real>,
    evidenceCoveragePercent: Option<real>,
    totalScoringWeight: int,
    ratedScoringWeight: int,
    attributedScoringWeight: int,
    mustHaveConflictIds: seq<string>,
    unknownQuestionIds: seq<string>,
    partialQuestionIds: seq<string>,
    unresolvedMustHaveIds: seq<string>)

  datatype ScreeningError =
    | InvalidQuestion | DuplicateQuestions | TooManyActive
    | IncompleteAnswers | InvalidAnswer | UngroundedRating

  const MAX_ACTIVE := 20
  const CONFIDENT := 0.85
  const FULL_ALIGNMENT := 4

  // ------------------------------------------------------------- validation

  predicate IsControl(c: char) {
    c <= '\U{001F}' || c == '\U{007F}'
  }

  predicate LowerHex(c: char) {
    '0' <= c <= '9' || 'a' <= c <= 'f'
  }

  predicate InputValid(q: Question) {
    && !Blank(q.text) && |q.text| <= 2000
    && (forall c :: c in q.text && IsControl(c) ==> c in {'\t', '\n', '\r'})
    && 1 <= q.weight <= 10
  }

  predicate QuestionValid(q: Question) {
    && InputValid(q)
    && q.id != "" && Trim(q.id) == q.id && |q.id| <= 200
    && (forall c :: c in q.id ==> !IsControl(c))
    && |q.revision| == 64 && (forall c :: c in q.revision ==> LowerHex(c))
  }

  predicate IsActive(q: Question) { q.active }

  function QuestionIds(questions: seq<Question>): seq<string> {
    Map(questions, (q: Question) => q.id)
  }

  function QuestionSetFault(questions: seq<Question>): Option<ScreeningError> {
    if exists i :: 0 <= i < |questions| && !QuestionValid(questions[i]) then Some(InvalidQuestion)
    else if !Distinct(QuestionIds(questions)) then Some(DuplicateQuestions)
    else if Count(questions, IsActive) > MAX_ACTIVE then Some(TooManyActive)
    else None
  }

  // ----------------------------------------------------------- one answer

  function AnswerFor(answers: seq<Answer>, id: string): Option<Answer> {
    Find(answers, (a: Answer) => a.questionId == id)
  }

  predicate AnswerUsable(q: Question, a: Answer) {
    && a.questionRevision == q.revision
    && !(q.kind == SourceKind && a.reply == Partial)
    && 0.0 <= a.confidence <= 1.0
    && if a.reply == Unknown then a.alignment.None?
       else a.alignment.Some? && 0 <= a.alignment.value <= FULL_ALIGNMENT
  }

  predicate Attributed(q: Question, a: Answer) {
    a.sourceCitations != [] && (q.kind == FitKind ==> a.candidateCitations != [])
  }

  predicate RatingGrounded(q: Question, a: Answer) {
    a.reply != Unknown ==>
      && Attributed(q, a)
      && if a.reply == Partial then a.alignment.Some? && 1 <= a.alignment.value <= 3
         else a.alignment == Some(if a.reply == Replied(q.desired) then FULL_ALIGNMENT else 0)
  }

  function AnswerFault(q: Question, answers: seq<Answer>): Option<ScreeningError> {
    var a := AnswerFor(answers, q.id);
    if a.None? || !AnswerUsable(q, a.value) then Some(InvalidAnswer)
    else if !RatingGrounded(q, a.value) then Some(UngroundedRating)
    else None
  }

  /** The fault of the first question, in list order, whose answer is not acceptable. */
  function FirstAnswerFault(questions: seq<Question>, answers: seq<Answer>): Option<ScreeningError> {
    if questions == [] then None
    else if AnswerFault(questions[0], answers).Some? then AnswerFault(questions[0], answers)
    else FirstAnswerFault(questions[1..], answers)
  }

  // ------------------------------------------------------------- the totals

  predicate IsUnknown(q: Question, answers: seq<Answer>) {
    var a := AnswerFor(answers, q.id); a.Some? && a.value.reply == Unknown
  }

  predicate IsPartial(q: Question, answers: seq<Answer>) {
    var a := AnswerFor(answers, q.id); a.Some? && a.value.reply == Partial
  }

  predicate IsUnresolved(q: Question, answers: seq<Answer>) {
    var a := AnswerFor(answers, q.id);
    && q.importance == MustHave && a.Some?
    && (!a.value.reply.Replied? || a.value.confidence < CONFIDENT)
  }

  predicate IsConflict(q: Question, answers: seq<Answer>) {
    var a := AnswerFor(answers, q.id);
    && q.importance == MustHave && a.Some?
    && a.value.reply.Replied? && a.value.reply.polarity != q.desired
    && a.value.confidence >= CONFIDENT && a.value.sourceCitations != []
  }

  function ScoringWeight(q: Question): int {
    if q.importance == Informational then 0 else q.weight
  }

  function RatedWeight(q: Question, answers: seq<Answer>): int {
    var a := AnswerFor(answers, q.id);
    if a.Some? && a.value.alignment.Some? then ScoringWeight(q) else 0
  }

  function AttributedWeight(q: Question, answers: seq<Answer>): int {
    var a := AnswerFor(answers, q.id);
    if a.Some? && a.value.alignment.Some? && Attributed(q, a.value) then ScoringWeight(q) else 0
  }

  /** Earned weight in quarters: alignment is a number of quarters of the desired answer. */
  function EarnedQuarters(q: Question, answers: seq<Answer>): int {
    var a := AnswerFor(answers, q.id);
    if a.Some? && a.value.alignment.Some? then ScoringWeight(q) * a.value.alignment.value else 0
  }

  function IdsWhere(questions: seq<Question>, p: Question -> bool): seq<string> {
    QuestionIds(Filter(questions, p))
  }

  function Percent(quarters: int, total: int): real
    requires total != 0
  {
    100.0 * (quarters as real / 4.0) / total as real
  }

  /** The running weights and id lists of the pass over the active questions. */
  datatype Totals = Totals(
    total: int, rated: int, attributed: int, earned: int,
    conflicts: seq<string>, unknowns: seq<string>, partials: seq<string>, unresolved: seq<string>)

  function TotalsOf(enabled: seq<Question>, answers: seq<Answer>): Totals {
    Totals(
      SumBy(enabled, ScoringWeight),
      SumBy(enabled, q => RatedWeight(q, answers)),
      SumBy(enabled, q => AttributedWeight(q, answers)),
      SumBy(enabled, q => EarnedQuarters(q, answers)),
      IdsWhere(enabled, q => IsConflict(q, answers)),
      IdsWhere(enabled, q => IsUnknown(q, answers)),
      IdsWhere(enabled, q => IsPartial(q, answers)),
      IdsWhere(enabled, q => IsUnresolved(q, answers)))
  }

  function Summarize(t: Totals): Aggregate {
    Aggregate(
      if t.total != 0 && t.rated != 0 then Some(Percent(t.earned, t.total)) else None,
      if t.total != 0 then Some(Percent(4 * t.attributed, t.total)) else None,
      t.total, t.rated, t.attributed, t.conflicts, t.unknowns, t.partials, t.unresolved)
  }

  predicate CoversExactly(enabled: seq<Question>, answers: seq<Answer>) {
    |answers| == |enabled| && Distinct(Map(answers, (a: Answer) => a.questionId))
  }

  /** The aggregate, or the first error met. */
  function Evaluate(questions: seq<Question>, answers: seq<Answer>): Result<Aggregate, ScreeningError> {
    var enabled := Filter(questions, IsActive);
    if QuestionSetFault(questions).Some? then Failure(QuestionSetFault(questions).value)
    else if !CoversExactly(enabled, answers) then Failure(IncompleteAnswers)
    else if FirstAnswerFault(enabled, answers).Some? then Failure(FirstAnswerFault(enabled, answers).value)
    else Success(Summarize(TotalsOf(enabled, answers)))
  }

  // --------------------------------------------------------------- the loop

  lemma {:induction false} FirstFaultAppend(s: seq<Question>, t: seq<Question>, answers: seq<Answer>)
    ensures FirstAnswerFault(s + t, answers) ==
            if FirstAnswerFault(s, answers).Some? then FirstAnswerFault(s, answers) else FirstAnswerFault(t, answers)
  {
    if s == [] {
      assert s + t == t;
    } else {
      assert (s + t)[1..] == s[1..] + t;
      FirstFaultAppend(s[1..], t, answers);
    }
  }

  lemma SumStep(s: seq<Question>, i: nat, f: Question -> int)
    requires i < |s|
    ensures SumBy(s[..i + 1], f) == SumBy(s[..i], f) + f(s[i])
  {
    assert s[..i + 1] == s[..i] + [s[i]];
    SumByAppend(s[..i], [s[i]], f);
  }

  lemma IdsStep(s: seq<Question>, i: nat, p: Question -> bool)
    requires i < |s|
    ensures IdsWhere(s[..i + 1], p) == IdsWhere(s[..i], p) + if p(s[i]) then [s[i].id] else []
  {
    assert s[..i + 1] == s[..i] + [s[i]];
    FilterAppend(s[..i], [s[i]], p);
  }

  /** The running totals once the answer to `q` is counted as well. */
  function WithAnswer(t: Totals, q: Question, answers: seq<Answer>): Totals {
    Totals(
      t.total + ScoringWeight(q),
      t.rated + RatedWeight(q, answers),
      t.attributed + AttributedWeight(q, answers),
      t.earned + EarnedQuarters(q, answers),
      t.conflicts + (if IsConflict(q, answers) then [q.id] else []),
      t.unknowns + (if IsUnknown(q, answers) then [q.id] else []),
      t.partials + (if IsPartial(q, answers) then [q.id] else []),
      t.unresolved + (if IsUnresolved(q, answers) then [q.id] else []))
  }

  lemma TotalsStep(enabled: seq<Question>, i: nat, answers: seq<Answer>)
    requires i < |enabled|
    ensures TotalsOf(enabled[..i + 1], answers) == WithAnswer(TotalsOf(enabled[..i], answers), enabled[i], answers)
  {
    SumStep(enabled, i, ScoringWeight);
    SumStep(enabled, i, q => RatedWeight(q, answers));
    SumStep(enabled, i, q => AttributedWeight(q, answers));
    SumStep(enabled, i, q => EarnedQuarters(q, answers));
    IdsStep(enabled, i, q => IsConflict(q, answers));
    IdsStep(enabled, i, q => IsUnknown(q, answers));
    IdsStep(enabled, i, q => IsPartial(q, answers));
    IdsStep(enabled, i, q => IsUnresolved(q, answers));
  }

  lemma FaultStep(enabled: seq<Question>, i: nat, answers: seq<Answer>)
    requires i < |enabled| && FirstAnswerFault(enabled[..i], answers).None?
    ensures var fault := AnswerFault(enabled[i], answers);
            if fault.Some? then FirstAnswerFault(enabled, answers) == fault
            else FirstAnswerFault(enabled[..i + 1], answers).None?
  {
    assert enabled == enabled[..i] + enabled[i..];
    FirstFaultAppend(enabled[..i], enabled[i..], answers);
    assert enabled[..i + 1] == enabled[..i] + [enabled[i]];
    FirstFaultAppend(enabled[..i], [enabled[i]], answers);
  }

  /** What one accepted answer adds to the running weights and id lists. */
  method AddAnswer(t: Totals, q: Question, answer: Answer, ghost answers: seq<Answer>) returns (u: Totals)
    requires AnswerFor(answers, q.id) == Some(answer) && RatingGrounded(q, answer)
    ensures u == WithAnswer(t, q, answers)
  {
    u := t;
    if answer.reply == Unknown {
      u := u.(unknowns := u.unknowns + [q.id]);
    }
    if answer.reply == Partial {
      u := u.(partials := u.partials + [q.id]);
    }
    if q.importance == MustHave
       && (answer.reply == Unknown || answer.reply == Partial || answer.confidence < CONFIDENT) {
      u := u.(unresolved := u.unresolved + [q.id]);
    }
    if q.importance == MustHave && answer.reply.Replied? && answer.reply.polarity != q.desired
       && answer.confidence >= CONFIDENT && answer.sourceCitations != [] {
      u := u.(conflicts := u.conflicts + [q.id]);
    }
    if q.importance == Informational {
      return;
    }
    u := u.(total := u.total + q.weight);
    if answer.alignment.Some? {
      u := u.(rated := u.rated + q.weight, earned := u.earned + q.weight * answer.alignment.value);
      if answer.sourceCitations != [] && (q.kind == SourceKind || answer.candidateCitations != []) {
        u := u.(attributed := u.attributed + q.weight);
      }
    }
  }

  ghost predicate Tallied(enabled: seq<Question>, i: nat, answers: seq<Answer>, totals: Totals)
    requires i <= |enabled|
  {
    FirstAnswerFault(enabled[..i], answers).None? && totals == TotalsOf(enabled[..i], answers)
  }

  lemma TalliedStart(enabled: seq<Question>, answers: seq<Answer>)
    ensures Tallied(enabled, 0, answers, Totals(0, 0, 0, 0, [], [], [], []))
  {
  }

  lemma TalliedStep(enabled: seq<Question>, i: nat, answers: seq<Answer>, totals: Totals)
    requires i < |enabled| && Tallied(enabled, i, answers, totals)
    ensures AnswerFault(enabled[i], answers).Some? ==>
              FirstAnswerFault(enabled, answers) == AnswerFault(enabled[i], answers)
    ensures AnswerFault(enabled[i], answers).None? ==>
              Tallied(enabled, i + 1, answers, WithAnswer(totals, enabled[i], answers))
  {
    FaultStep(enabled, i, answers);
    TotalsStep(enabled, i, answers);
  }

  lemma TalliedEnd(enabled: seq<Question>, answers: seq<Answer>, totals: Totals)
    requires Tallied(enabled, |enabled|, answers, totals)
    ensures FirstAnswerFault(enabled, answers).None? && totals == TotalsOf(enabled, answers)
  {
    assert enabled[..|enabled|] == enabled;
  }

  /** One pass over the active questions, stopping at the first answer that is not acceptable. */
  method TallyAnswers(enabled: seq<Question>, answers: seq<Answer>) returns (r: Result<Totals, ScreeningError>)
    ensures r == if FirstAnswerFault(enabled, answers).Some? then Failure(FirstAnswerFault(enabled, answers).value)
                 else Success(TotalsOf(enabled, answers))
  {
    var totals := Totals(0, 0, 0, 0, [], [], [], []);
    TalliedStart(enabled, answers);
    for i := 0 to |enabled|
      invariant Tallied(enabled, i, answers, totals)
    {
      TalliedStep(enabled, i, answers, totals);
      var answer := AnswerFor(answers, enabled[i].id);
      if answer.None? || !AnswerUsable(enabled[i], answer.value) {
        return Failure(InvalidAnswer);
      }
      if !RatingGrounded(enabled[i], answer.value) {
        return Failure(UngroundedRating);
      }
      totals := AddAnswer(totals, enabled[i], answer.value, answers);
    }
    TalliedEnd(enabled, answers, totals);
    return Success(totals);
  }

  method AggregateAnswers(questions: seq<Question>, answers: seq<Answer>)
    returns (r: Result<Aggregate, ScreeningError>)
    ensures r == Evaluate(questions, answers)
  {
    var fault := QuestionSetFault(questions);
    if fault.Some? {
      return Failure(fault.value);
    }
    var enabled := Filter(questions, IsActive);
    if !CoversExactly(enabled, answers) {
      return Failure(IncompleteAnswers);
    }
    var totals := TallyAnswers(enabled, answers);
    if totals.Failure? {
      return Failure(totals.error);
    }
    return Success(Summarize(totals.value));
  }
}
