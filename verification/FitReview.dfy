/**
 Validation of a saved evidence review before it is shown: the checks of
 getCurrentOpportunityResumeFitReviewProjection, as loops proved against the
 declarative predicate Accepted. FitReviewTheorems proves what acceptance implies.
 */
module FitReview {
  import opened Sequences
  import opened JsNumbers
  import opened JsText

  datatype Mode = Advisory | CompleteMaterial
  datatype Model = Sol | Luna
  datatype Support = Strength | Uncertain
  datatype Seniority = SenioritySupported | SeniorityUncertain | NotApplicable
  datatype Disposition = Criterion | Context | UnknownDisposition
  /** The status of a source clause, and the source classification a row repeats. */
  datatype Classification = CertifiedNonrequirement | ConfirmedRequirement | PossibleRequirement
  datatype CitationMode = WholeClause | WholeField | WholeFact | Excerpt

  datatype PostingCitation = PostingCitation(
    quote: string, start: int, end: int, clauseId: string, mode: CitationMode, fieldPath: Option<string>)
  datatype CandidateCitation = CandidateCitation(
    quote: string, start: int, end: int, sourceId: string, title: string, kind: string, mode: CitationMode)
  datatype Suggestion = Suggestion(status: Support, seniority: Seniority, note: string)

  datatype Row = Row(
    id: string,
    text: string,
    status: Support,
    seniority: Seniority,
    candidateCitations: seq<CandidateCitation>,
    postingCitations: seq<PostingCitation>,
    originalSolSuggestion: Option<Suggestion>,
    originalRequirementIds: Option<seq<string>>,
    disposition: Option<Disposition>,
    classification: Option<Classification>)

  datatype FitStatus = SupportsAll | SupportedWithUncertainties | NeedsEvidence | NoCriteria
  datatype EvidenceFit = EvidenceFit(
    supported: int, uncertain: int, sourceUnknown: int, context: int, classificationUnknown: int,
    considered: int, status: FitStatus, supportLowerBound: Option<real>)

  datatype Clause = Clause(clauseId: string, status: Classification)
  datatype Field = Field(
    fieldId: string, path: string, hash: string, bodyClauseIds: seq<string>, representedInBody: bool)

  datatype Coverage = Coverage(
    candidateSourceCount: int,
    sourceComplete: bool,
    consideredComplete: bool,
    reviewedRequirementIds: seq<string>,
    unresolvedClauseIds: seq<string>,
    fullFit: Option<EvidenceFit>,  // None is the source's 'unknown'
    clauses: seq<Clause>,
    metadata: Option<seq<Field>>,
    materialIds: Option<seq<string>>)

  datatype Completion = Completion(
    consideredComplete: bool, unprocessedClauseIds: seq<string>,
    catalogClauseCount: int, reviewedMaterialClauseCount: int, possibleRequirementCount: int)

  datatype VerificationVersion = IndependentV1 | PartialRelevanceV2
  datatype Verification = Verification(
    version: VerificationVersion,
    sourceCurrent: bool,
    strengthClaimCount: int, verifiedStrengthCount: int,
    seniorityClaimCount: int, verifiedSeniorityCount: int,
    partialClaimCount: Option<int>, verifiedPartialCount: Option<int>, partialIds: Option<seq<string>>)

  datatype Pair = Pair(requirementId: string, probability: real, cited: bool)
  datatype Advice = Advice(denominator: int, pairs: seq<Pair>, weightedMean: Option<real>)

  datatype Review = Review(
    mode: Mode,
    model: Model,
    sourceCurrent: bool,
    completeContract: bool,
    coverage: Coverage,
    requirements: seq<Row>,
    verification: Option<Verification>,
    evidenceFit: Option<EvidenceFit>,
    completion: Option<Completion>,
    advice: Option<Advice>)

  const FIELD_PREFIX := "source-field:"
  const PATH_PREFIX := "sourceContentJson."
  const PARTIAL_THRESHOLD := 0.85

  // ------------------------------------------------------------ small checks

  predicate Text(s: string) {
    !Blank(s)
  }

  predicate Ids(s: seq<string>) {
    && (forall i :: 0 <= i < |s| ==> Text(s[i]))
    && Distinct(s)
  }

  predicate Quoted(quote: string, start: int, end: int) {
    Text(quote) && 0 <= start < end && |quote| == end - start
  }

  predicate Letter(c: char) {
    'a' <= c <= 'z' || 'A' <= c <= 'Z'
  }

  predicate FieldPath(s: string) {
    && StartsWith(s, PATH_PREFIX)
    && |s| > |PATH_PREFIX|
    && Letter(s[|PATH_PREFIX|])
    && forall i :: |PATH_PREFIX| < i < |s| ==> Letter(s[i]) || '0' <= s[i] <= '9'
  }

  // ---------------------------------------------------------------- the rows

  predicate IsStrength(row: Row) { row.status == Strength }
  predicate IsCriterion(row: Row) { row.disposition == Some(Criterion) }
  predicate IsContext(row: Row) { row.disposition == Some(Context) }
  predicate IsSourceUnknown(row: Row) { row.disposition == Some(UnknownDisposition) }
  predicate IsConsidered(row: Row) { !IsContext(row) }
  predicate IsSupported(row: Row) { !IsSourceUnknown(row) && !IsContext(row) && IsStrength(row) }
  predicate IsUncertain(row: Row) { !IsSourceUnknown(row) && !IsContext(row) && !IsStrength(row) }
  predicate IsUnclassified(row: Row) { row.classification == Some(PossibleRequirement) }
  predicate CitesBothSides(row: Row) { row.candidateCitations != [] && row.postingCitations != [] }

  predicate RowWellFormed(row: Row, review: Review) {
    && Text(row.id) && Text(row.text)
    && (forall c :: c in row.candidateCitations ==>
          Quoted(c.quote, c.start, c.end) && Text(c.sourceId) && Text(c.title) && Text(c.kind))
    && (forall c :: c in row.postingCitations ==> Quoted(c.quote, c.start, c.end) && Text(c.clauseId))
    && (IsStrength(row) ==> CitesBothSides(row))
    && (row.originalSolSuggestion.Some? ==> review.model == Sol && review.verification.Some?)
  }

  function RowIds(rows: seq<Row>): seq<string> {
    Map(rows, (row: Row) => row.id)
  }

  /** Every row is well formed, and the reviewed requirement ids are exactly the row ids. */
  predicate RowsAccepted(review: Review) {
    && (forall i :: 0 <= i < |review.requirements| ==> RowWellFormed(review.requirements[i], review))
    && Distinct(RowIds(review.requirements))
    && |review.requirements| == |review.coverage.reviewedRequirementIds|
    && forall id :: id in RowIds(review.requirements) ==> id in review.coverage.reviewedRequirementIds
  }

  predicate HeaderAccepted(review: Review) {
    && review.sourceCurrent
    && (review.mode == Advisory ==> review.coverage.fullFit.None?)
    && review.coverage.candidateSourceCount >= 1
    && Ids(review.coverage.reviewedRequirementIds)
    && Ids(review.coverage.unresolvedClauseIds)
    && (review.mode == Advisory && review.coverage.sourceComplete ==> review.coverage.unresolvedClauseIds == [])
    && review.requirements != []
  }

  // ----------------------------------------------------------- evidence counts

  /** The summary a complete review must carry: every count is a count of rows. */
  function EvidenceSummary(rows: seq<Row>): EvidenceFit {
    var supported := Count(rows, IsSupported);
    var uncertain := Count(rows, IsUncertain);
    var sourceUnknown := Count(rows, IsSourceUnknown);
    var classificationUnknown := Count(rows, IsUnclassified);
    var considered := supported + uncertain + sourceUnknown;
    EvidenceFit(
      supported, uncertain, sourceUnknown, Count(rows, IsContext), classificationUnknown, considered,
      if considered == 0 then NoCriteria
      else if supported == 0 then NeedsEvidence
      else if uncertain == 0 && sourceUnknown == 0 && classificationUnknown == 0 then SupportsAll
      else SupportedWithUncertainties,
      if considered == 0 then None else Some(supported as real / considered as real))
  }

  // ------------------------------------------------------------- verification

  predicate VerificationAccepted(v: Verification, review: Review) {
    var rows := review.requirements;
    var criteria := Count(rows, IsCriterion);
    && review.mode == CompleteMaterial && review.model == Sol && v.sourceCurrent
    && SafeCount(v.strengthClaimCount) && SafeCount(v.verifiedStrengthCount)
    && SafeCount(v.seniorityClaimCount) && SafeCount(v.verifiedSeniorityCount)
    && v.verifiedStrengthCount <= v.strengthClaimCount <= criteria
    && v.verifiedSeniorityCount <= v.seniorityClaimCount <= criteria
    && v.verifiedStrengthCount == Count(rows, IsStrength)
    && v.verifiedSeniorityCount == Count(rows, (row: Row) => row.seniority == SenioritySupported)
    && match v.version
       case IndependentV1 =>
         && v.strengthClaimCount + v.seniorityClaimCount >= 1
         && v.partialClaimCount.None? && v.verifiedPartialCount.None? && v.partialIds.None?
       case PartialRelevanceV2 =>
         && v.partialClaimCount.Some? && v.verifiedPartialCount.Some? && v.partialIds.Some?
         && v.strengthClaimCount + v.seniorityClaimCount + v.partialClaimCount.value >= 1
         && SafeCount(v.partialClaimCount.value) && SafeCount(v.verifiedPartialCount.value)
         && v.verifiedPartialCount.value <= v.partialClaimCount.value <= criteria
         && Ids(v.partialIds.value)
         && |v.partialIds.value| == v.verifiedPartialCount.value
         && PartialIdsSupportable(v.partialIds.value, rows)
  }

  predicate PartialIdsSupportable(ids: seq<string>, rows: seq<Row>) {
    forall id :: id in ids ==> exists row :: row in rows && row.id == id && PartiallySupportable(row)
  }

  predicate PartiallySupportable(row: Row) {
    IsCriterion(row) && row.status == Uncertain && CitesBothSides(row)
  }

  // -------------------------------------------------------- complete material

  predicate IsMaterial(c: Clause) { c.status != CertifiedNonrequirement }
  predicate IsPossible(c: Clause) { c.status == PossibleRequirement }
  predicate IsMaterialField(f: Field) { !f.representedInBody }

  function ClauseIds(clauses: seq<Clause>): seq<string> {
    Map(clauses, (c: Clause) => c.clauseId)
  }

  function FieldIds(fields: seq<Field>): seq<string> {
    Map(fields, (f: Field) => f.fieldId)
  }

  function MaterialClauses(review: Review): seq<Clause> {
    Filter(review.coverage.clauses, IsMaterial)
  }

  function MaterialFields(review: Review): seq<Field> {
    if review.coverage.metadata.None? then [] else Filter(review.coverage.metadata.value, IsMaterialField)
  }

  /** What a complete review has to answer: material clauses, then fields the body does not represent. */
  function MaterialUnitIds(review: Review): seq<string> {
    ClauseIds(MaterialClauses(review)) + FieldIds(MaterialFields(review))
  }

  predicate FieldWellFormed(f: Field, clauses: seq<Clause>) {
    && Text(f.fieldId) && StartsWith(f.fieldId, FIELD_PREFIX)
    && FieldPath(f.path) && Text(f.hash) && Ids(f.bodyClauseIds)
    && (f.representedInBody ==>
          f.bodyClauseIds != [] && forall id :: id in f.bodyClauseIds ==> id in ClauseIds(clauses))
  }

  /** The id of the one source unit a row of a complete review cites. */
  function CitedId(row: Row): string {
    if row.postingCitations == [] then "" else row.postingCitations[0].clauseId
  }

  function CitedIds(rows: seq<Row>): seq<string> {
    Map(rows, CitedId)
  }

  predicate RowShape(row: Row) {
    && row.originalRequirementIds.Some? && Ids(row.originalRequirementIds.value)
    && row.disposition.Some?
    && row.classification in {Some(ConfirmedRequirement), Some(PossibleRequirement)}
    && |row.postingCitations| == 1
    && var cite := row.postingCitations[0];
       && cite.mode in {WholeClause, WholeField}
       && (cite.mode == WholeField ==>
             && cite.start == 0 && StartsWith(cite.clauseId, FIELD_PREFIX)
             && cite.fieldPath.Some? && FieldPath(cite.fieldPath.value))
       && forall c :: c in row.candidateCitations ==> c.mode == WholeFact && c.start == 0
  }

  /** The row answers a source unit of its own kind and repeats that unit's classification. */
  predicate RowAnswersUnit(row: Row, material: seq<Clause>, fields: seq<Field>) {
    && RowShape(row)
    && var cite := row.postingCitations[0];
       if cite.mode == WholeField then
         && row.classification == Some(PossibleRequirement)
         && var field := Find(fields, (f: Field) => f.fieldId == cite.clauseId);
            field.Some? && cite.fieldPath == Some(field.value.path)
       else
         var source := Find(material, (c: Clause) => c.clauseId == cite.clauseId);
         source.Some? && row.classification == Some(source.value.status)
  }

  predicate RowsLinked(rows: seq<Row>, material: seq<Clause>, fields: seq<Field>) {
    && (forall i :: 0 <= i < |rows| ==> RowAnswersUnit(rows[i], material, fields))
    && Distinct(CitedIds(rows))
  }

  predicate CompletionAccepted(c: Completion, review: Review) {
    && c.consideredComplete && c.unprocessedClauseIds == []
    && SafeInteger(c.catalogClauseCount) && SafeInteger(c.reviewedMaterialClauseCount)
    && SafeInteger(c.possibleRequirementCount)
    && review.coverage.metadata.Some?
    && c.catalogClauseCount == |review.coverage.clauses| + |review.coverage.metadata.value|
    && c.reviewedMaterialClauseCount == |MaterialUnitIds(review)|
    && c.possibleRequirementCount == Count(review.coverage.clauses, IsPossible) + |MaterialFields(review)|
  }

  predicate UnitsAccepted(review: Review) {
    var clauses := review.coverage.clauses;
    && clauses != []
    && review.coverage.metadata.Some? && review.coverage.materialIds.Some?
    && var metadata, materialIds := review.coverage.metadata.value, review.coverage.materialIds.value;
       && (forall f :: f in metadata ==> FieldWellFormed(f, clauses))
       && Distinct(FieldIds(metadata))
       && (forall c :: c in clauses ==> Text(c.clauseId))
       && Distinct(ClauseIds(clauses))
       && Distinct(MaterialUnitIds(review))
       && Ids(materialIds) && |materialIds| == |MaterialUnitIds(review)|
       && (forall id :: id in MaterialUnitIds(review) ==> id in materialIds)
       && |review.requirements| == |MaterialUnitIds(review)|
  }

  predicate CompleteAccepted(review: Review) {
    && review.evidenceFit == Some(EvidenceSummary(review.requirements))
    && review.coverage.fullFit == Some(EvidenceSummary(review.requirements))
    && review.completeContract
    && review.coverage.consideredComplete && review.coverage.sourceComplete
    && review.completion.Some? && CompletionAccepted(review.completion.value, review)
    && UnitsAccepted(review)
    && RowsLinked(review.requirements, MaterialClauses(review), MaterialFields(review))
  }

  // ------------------------------------------------------- advisory relevance

  function ProbabilitySum(pairs: seq<Pair>): real {
    if pairs == [] then 0.0 else pairs[0].probability + ProbabilitySum(pairs[1..])
  }

  /** Equal weights over the considered rows; no mean without any. */
  function RelevanceMean(pairs: seq<Pair>, denominator: int): Option<real> {
    if !SafeCount(denominator) || |pairs| != denominator
       || (exists p :: p in pairs && !(0.0 <= p.probability <= 1.0)) || denominator == 0
    then None
    else Some(ProbabilitySum(pairs) / denominator as real)
  }

  predicate Establishes(pair: Pair) {
    pair.cited && pair.probability >= PARTIAL_THRESHOLD
  }

  predicate PairAccepted(pair: Pair, row: Row) {
    && pair.requirementId == row.id
    && 0.0 <= pair.probability <= 1.0
    && if pair.cited then IsCriterion(row) && CitesBothSides(row) else pair.probability == 0.0
  }

  predicate PairsAccepted(pairs: seq<Pair>, considered: seq<Row>) {
    && |pairs| == |considered|
    && forall i :: 0 <= i < |considered| ==> PairAccepted(pairs[i], considered[i])
  }

  /** Uncertain rows with an establishing pair are listed, and listed ids have an establishing pair. */
  predicate PartialIdsMatchPairs(ids: seq<string>, pairs: seq<Pair>, considered: seq<Row>)
    requires |pairs| == |considered|
  {
    && (forall i :: 0 <= i < |considered| && Establishes(pairs[i]) && considered[i].status == Uncertain ==>
          pairs[i].requirementId in ids)
    && forall id :: id in ids ==> exists p :: p in pairs && p.requirementId == id && Establishes(p)
  }

  predicate IsCited(pair: Pair) { pair.cited }

  predicate AdviceAccepted(a: Advice, review: Review) {
    && review.mode == CompleteMaterial
    && review.verification.Some? && review.verification.value.version == PartialRelevanceV2
    && review.evidenceFit.Some? && a.denominator == review.evidenceFit.value.considered
    && var v, considered := review.verification.value, Filter(review.requirements, IsConsidered);
       && v.partialIds.Some? && Ids(v.partialIds.value)
       && PairsAccepted(a.pairs, considered)
       && Some(Count(a.pairs, IsCited) as int) == v.partialClaimCount
       && PartialIdsMatchPairs(v.partialIds.value, a.pairs, considered)
       && a.weightedMean == RelevanceMean(a.pairs, a.denominator)
  }

  /** The whole acceptance condition of the presentation validator. */
  predicate Accepted(review: Review) {
    && HeaderAccepted(review)
    && RowsAccepted(review)
    && (review.verification.Some? ==> VerificationAccepted(review.verification.value, review))
    && (review.mode == CompleteMaterial && review.model == Sol ==> review.verification.Some?)
    && (review.mode == CompleteMaterial ==> CompleteAccepted(review))
    && (review.advice.Some? ==> AdviceAccepted(review.advice.value, review))
  }

  // --------------------------------------------------------------- the loops

  lemma CountPrefix(rows: seq<Row>, i: nat, p: Row -> bool)
    requires i < |rows|
    ensures Count(rows[..i + 1], p) == Count(rows[..i], p) + if p(rows[i]) then 1 else 0
  {
    assert rows[..i + 1] == rows[..i] + [rows[i]];
    FilterAppend(rows[..i], [rows[i]], p);
  }

  /** One pass over the rows decides whether a stored summary is the one the rows give. */
  method ConsistentEvidenceFit(fit: EvidenceFit, rows: seq<Row>) returns (ok: bool)
    ensures ok <==> fit == EvidenceSummary(rows)
  {
    var supported, uncertain, sourceUnknown, context, classificationUnknown := 0, 0, 0, 0, 0;
    for i := 0 to |rows|
      invariant supported == Count(rows[..i], IsSupported)
      invariant uncertain == Count(rows[..i], IsUncertain)
      invariant sourceUnknown == Count(rows[..i], IsSourceUnknown)
      invariant context == Count(rows[..i], IsContext)
      invariant classificationUnknown == Count(rows[..i], IsUnclassified)
    {
      CountPrefix(rows, i, IsSupported);
      CountPrefix(rows, i, IsUncertain);
      CountPrefix(rows, i, IsSourceUnknown);
      CountPrefix(rows, i, IsContext);
      CountPrefix(rows, i, IsUnclassified);
      var row := rows[i];
      if row.classification == Some(PossibleRequirement) {
        classificationUnknown := classificationUnknown + 1;
      }
      if row.disposition == Some(UnknownDisposition) {
        sourceUnknown := sourceUnknown + 1;
      } else if row.disposition == Some(Context) {
        context := context + 1;
      } else if row.status == Strength {
        supported := supported + 1;
      } else {
        uncertain := uncertain + 1;
      }
    }
    assert rows[..|rows|] == rows;
    var considered := supported + uncertain + sourceUnknown;
    var status :=
      if considered == 0 then NoCriteria
      else if supported == 0 then NeedsEvidence
      else if uncertain == 0 && sourceUnknown == 0 && classificationUnknown == 0 then SupportsAll
      else SupportedWithUncertainties;
    ok := && fit.supported == supported && fit.uncertain == uncertain && fit.sourceUnknown == sourceUnknown
          && fit.context == context && fit.classificationUnknown == classificationUnknown
          && fit.considered == considered && fit.status == status
          && fit.supportLowerBound ==
             if considered == 0 then None else Some(supported as real / considered as real);
  }

  /** Checks the rows one by one while collecting their ids, then compares with the reviewed ids. */
  method CheckRows(review: Review) returns (ok: bool)
    ensures ok <==> RowsAccepted(review)
  {
    var rows := review.requirements;
    var ids: seq<string> := [];
    for i := 0 to |rows|
      invariant ids == RowIds(rows)[..i]
      invariant forall k :: 0 <= k < i ==> RowWellFormed(rows[k], review)
    {
      if !RowWellFormed(rows[i], review) {
        return false;
      }
      ids := ids + [rows[i].id];
    }
    assert ids == RowIds(rows);
    SetSizeIsDistinct(ids);
    var reviewed := review.coverage.reviewedRequirementIds;
    ok := && |Elements(ids)| == |ids| && |ids| == |reviewed|
          && forall id :: id in ids ==> id in reviewed;
  }

  lemma NothingRepeats(units: seq<string>)
    ensures Distinct(units[..0])
  {
  }

  /** Adds each row's unit to a set, stopping at a row without one or whose unit was already added. */
  method LinkUnits<T>(rows: seq<T>, accepts: T -> bool, unit: T -> string) returns (linked: Option<set<string>>)
    ensures linked.Some? <==> (forall i :: 0 <= i < |rows| ==> accepts(rows[i])) && Distinct(Map(rows, unit))
    ensures linked.Some? ==> linked.value == Elements(Map(rows, unit))
  {
    hide Distinct;
    var seen: set<string> := {};
    ghost var units := Map(rows, unit);
    NothingRepeats(units);
    for i := 0 to |rows|
      invariant forall k :: 0 <= k < i ==> accepts(rows[k])
      invariant Distinct(units[..i])
      invariant seen == Elements(units[..i])
    {
      if !accepts(rows[i]) {
        return None;
      }
      var clauseId := unit(rows[i]);
      assert units[..i + 1] == units[..i] + [clauseId];
      DistinctAppend(units[..i], clauseId);
      if clauseId in seen {
        DistinctPrefix(units, i + 1);
        return None;
      }
      seen := seen + {clauseId};
    }
    assert units[..|rows|] == units;
    return Some(seen);
  }

  /** Linking succeeds exactly when every row answers a unit that no other row answers. */
  method LinkRows(rows: seq<Row>, material: seq<Clause>, fields: seq<Field>) returns (linked: Option<set<string>>)
    ensures linked.Some? <==> RowsLinked(rows, material, fields)
    ensures linked.Some? ==> linked.value == Elements(CitedIds(rows))
  {
    linked := LinkUnits(rows, (row: Row) => RowAnswersUnit(row, material, fields), CitedId);
  }

  /** The checks of a complete review, in the order the validator makes them. */
  method CheckComplete(review: Review) returns (ok: bool)
    ensures ok <==> CompleteAccepted(review)
  {
    if review.evidenceFit.None? || review.coverage.fullFit.None? {
      return false;
    }
    var fitOk := ConsistentEvidenceFit(review.evidenceFit.value, review.requirements);
    var fullFitOk := ConsistentEvidenceFit(review.coverage.fullFit.value, review.requirements);
    if !fitOk || !fullFitOk || !review.completeContract || review.completion.None?
       || !review.coverage.consideredComplete || !review.coverage.sourceComplete
       || !UnitsAccepted(review) || !CompletionAccepted(review.completion.value, review) {
      return false;
    }
    var linked := LinkRows(review.requirements, MaterialClauses(review), MaterialFields(review));
    ok := linked.Some?;
  }

  /** The presentation validator: it returns the review itself, or nothing. */
  method CurrentProjection(review: Review) returns (r: Option<Review>)
    ensures r == if Accepted(review) then Some(review) else None
  {
    if !HeaderAccepted(review) {
      return None;
    }
    var rowsOk := CheckRows(review);
    if !rowsOk {
      return None;
    }
    if review.verification.Some? {
      if !VerificationAccepted(review.verification.value, review) {
        return None;
      }
    } else if review.mode == CompleteMaterial && review.model == Sol {
      return None;
    }
    if review.mode == CompleteMaterial {
      var completeOk := CheckComplete(review);
      if !completeOk {
        return None;
      }
    }
    if review.advice.Some? {
      if !AdviceAccepted(review.advice.value, review) {
        return None;
      }
    }
    return Some(review);
  }

  // --------------------------------------------------------- what readers use

  /** What an opportunity record holds about its review. */
  datatype ReviewRecord = ReviewRecord(
    projection: Option<Review>,
    statusUnknown: bool,
    partialSupported: Option<nat>)  // the supported count of a current partial assessment, if there is one

  function CurrentComplete(projection: Option<Review>, statusUnknown: bool): Option<Review> {
    if statusUnknown || projection.None? || !Accepted(projection.value) then None
    else if projection.value.mode == CompleteMaterial && projection.value.evidenceFit.Some? then projection
    else None
  }

  function CompleteReview(record: ReviewRecord): Option<Review> {
    CurrentComplete(record.projection, record.statusUnknown)
  }

  predicate CompleteUnavailable(record: ReviewRecord) {
    || record.statusUnknown
    || (record.projection.Some? && record.projection.value.mode == CompleteMaterial
        && CurrentComplete(record.projection, false).None?)
  }

  datatype CitedSupport = CitedSupport(
    supported: int,
    supportLowerBound: Option<real>,
    relevanceMean: Option<real>,
    partialSupported: Option<int>,
    partialLowerBound: Option<real>)

  function CurrentSupport(record: ReviewRecord): Option<CitedSupport> {
    var complete := CompleteReview(record);
    if complete.Some? then
      var review := complete.value;
      var fit := review.evidenceFit.value;
      var partial :=
        if review.verification.Some? && review.verification.value.version == PartialRelevanceV2
           && review.verification.value.verifiedPartialCount.Some?
           && review.verification.value.verifiedPartialCount.value > 0
        then review.verification.value.verifiedPartialCount
        else None;
      Some(CitedSupport(
        fit.supported,
        fit.supportLowerBound,
        if review.advice.Some? then review.advice.value.weightedMean else None,
        partial,
        if partial.Some? && fit.considered != 0
        then Some(partial.value as real / fit.considered as real)
        else None))
    else if CompleteUnavailable(record) || record.partialSupported.None? then None
    else Some(CitedSupport(record.partialSupported.value, None, None, None, None))
  }
}
