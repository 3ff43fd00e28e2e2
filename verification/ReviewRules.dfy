/**
 When a saved review is accepted, as a reader of the review would say it: characters, rows and ids, with one-to-one
 correspondences in place of the validator's comparisons of lengths and memberships.
 */
module ReviewRules {
  import opened Sequences
  import opened JsNumbers
  import opened JsText
  import opened FitReview
  import opened FitReviewTheorems

  // ------------------------------------------------------------------ the header

  ghost predicate Readable(s: string) {
    exists i :: 0 <= i < |s| && !IsSpace(s[i])
  }

  /** Readable names, none of them twice. */
  ghost predicate Names(s: seq<string>) {
    && (forall i :: 0 <= i < |s| ==> Readable(s[i]))
    && forall i, j :: 0 <= i < j < |s| ==> s[i] != s[j]
  }

  ghost predicate HeaderRules(review: Review) {
    && review.sourceCurrent && review.requirements != []
    && review.coverage.candidateSourceCount > 0
    && Names(review.coverage.reviewedRequirementIds) && Names(review.coverage.unresolvedClauseIds)
    && (review.mode == Advisory ==>
          review.coverage.fullFit == None
          && (review.coverage.sourceComplete ==> |review.coverage.unresolvedClauseIds| == 0))
    && (review.mode == CompleteMaterial && review.model == Sol ==> review.verification != None)
  }

  lemma TextIff(s: string)
    ensures Text(s) <==> Readable(s)
  {
  }

  lemma IdsIff(s: seq<string>)
    ensures Ids(s) <==> Names(s)
  {
    hide Text;
    hide Readable;
    forall i | 0 <= i < |s| ensures Text(s[i]) == Readable(s[i]) {
      TextIff(s[i]);
    }
  }

  lemma HeaderIff(review: Review)
    ensures HeaderRules(review) <==>
            HeaderAccepted(review)
            && (review.mode == CompleteMaterial && review.model == Sol ==> review.verification.Some?)
  {
    hide Ids;
    hide Names;
    IdsIff(review.coverage.reviewedRequirementIds);
    IdsIff(review.coverage.unresolvedClauseIds);
  }

  // -------------------------------------------------------------------- the rows

  /** A quotation of the characters from `start` to `end`. */
  ghost predicate Spans(quote: string, start: int, end: int) {
    start >= 0 && end == start + |quote| && Readable(quote)
  }

  ghost predicate RowRules(row: Row, review: Review) {
    && Readable(row.id) && Readable(row.text)
    && (forall c :: c in row.candidateCitations ==>
          Spans(c.quote, c.start, c.end) && Readable(c.sourceId) && Readable(c.title) && Readable(c.kind))
    && (forall c :: c in row.postingCitations ==> Spans(c.quote, c.start, c.end) && Readable(c.clauseId))
    && (row.status == Strength ==> |row.candidateCitations| > 0 && |row.postingCitations| > 0)
    && (row.originalSolSuggestion != None ==> review.model == Sol && review.verification != None)
  }

  /** Every row is in order, and the reviewed ids are those of the rows, each once. */
  ghost predicate RowsRules(review: Review) {
    && (forall i :: 0 <= i < |review.requirements| ==> RowRules(review.requirements[i], review))
    && multiset(Map(review.requirements, (row: Row) => row.id)) == multiset(review.coverage.reviewedRequirementIds)
  }

  lemma QuotedIff(quote: string, start: int, end: int)
    ensures Quoted(quote, start, end) <==> Spans(quote, start, end)
  {
    TextIff(quote);
  }

  lemma RowIff(row: Row, review: Review)
    ensures RowWellFormed(row, review) <==> RowRules(row, review)
  {
    hide Text;
    hide Readable;
    hide Quoted;
    hide Spans;
    forall s: string ensures Text(s) <==> Readable(s) {
      TextIff(s);
    }
    forall quote, start, end ensures Quoted(quote, start, end) <==> Spans(quote, start, end) {
      QuotedIff(quote, start, end);
    }
  }

  /** Two lists, the second without repetition, hold the same ids exactly when the first has none either. */
  lemma SameIdsIff(a: seq<string>, b: seq<string>)
    requires Distinct(b)
    ensures multiset(a) == multiset(b) <==> Distinct(a) && |a| == |b| && forall id :: id in a ==> id in b
  {
    if multiset(a) == multiset(b) {
      DistinctPermutation(b, a);
      assert |a| == |multiset(a)| && |b| == |multiset(b)|;
      assert forall id :: id in a ==> id in Elements(a);
    }
    if Distinct(a) && |a| == |b| && forall id :: id in a ==> id in b {
      Pigeonhole(a, b);
    }
  }

  lemma NamesDistinct(s: seq<string>)
    requires Names(s)
    ensures Distinct(s)
  {
  }

  lemma RowsIff(review: Review)
    requires HeaderRules(review)
    ensures RowsRules(review) <==> RowsAccepted(review)
  {
    hide RowRules;
    hide RowWellFormed;
    hide Names;
    hide Distinct;
    forall i | 0 <= i < |review.requirements|
      ensures RowRules(review.requirements[i], review) == RowWellFormed(review.requirements[i], review)
    {
      RowIff(review.requirements[i], review);
    }
    NamesDistinct(review.coverage.reviewedRequirementIds);
    SameIdsIff(RowIds(review.requirements), review.coverage.reviewedRequirementIds);
  }

  // ---------------------------------------------------------------- verification

  /** At most `claimed` of the criteria are claimed, and `verified` of the claims hold. */
  predicate Checked(verified: int, claimed: int, criteria: nat) {
    0 <= verified <= claimed <= criteria && claimed <= 9007199254740991
  }

  ghost predicate PartialRow(id: string, rows: seq<Row>) {
    exists row :: row in rows && row.id == id && row.disposition == Some(Criterion) && row.status == Uncertain
                  && |row.candidateCitations| > 0 && |row.postingCitations| > 0
  }

  ghost predicate VerificationRules(v: Verification, review: Review) {
    var rows := review.requirements;
    var criteria := Count(rows, (row: Row) => row.disposition == Some(Criterion));
    && review.mode == CompleteMaterial && review.model == Sol && v.sourceCurrent
    && Checked(v.verifiedStrengthCount, v.strengthClaimCount, criteria)
    && Checked(v.verifiedSeniorityCount, v.seniorityClaimCount, criteria)
    && v.verifiedStrengthCount == Count(rows, (row: Row) => row.status == Strength)
    && v.verifiedSeniorityCount == Count(rows, (row: Row) => row.seniority == SenioritySupported)
    && (v.version == IndependentV1 ==>
          && v.partialClaimCount == None && v.verifiedPartialCount == None && v.partialIds == None
          && (v.strengthClaimCount > 0 || v.seniorityClaimCount > 0))
    && (v.version == PartialRelevanceV2 ==>
          && v.partialClaimCount.Some? && v.verifiedPartialCount.Some? && v.partialIds.Some?
          && Checked(v.verifiedPartialCount.value, v.partialClaimCount.value, criteria)
          && (v.strengthClaimCount > 0 || v.seniorityClaimCount > 0 || v.partialClaimCount.value > 0)
          && Names(v.partialIds.value) && |v.partialIds.value| == v.verifiedPartialCount.value
          && forall id :: id in v.partialIds.value ==> PartialRow(id, rows))
  }

  lemma PartialIdsIff(ids: seq<string>, rows: seq<Row>)
    ensures PartialIdsSupportable(ids, rows) <==> forall id :: id in ids ==> PartialRow(id, rows)
  {
    forall id: string
      ensures PartialRow(id, rows) <==> exists row :: row in rows && row.id == id && PartiallySupportable(row)
    {
      if row :| row in rows && row.id == id && PartiallySupportable(row) {
        assert PartialRow(id, rows);
      }
      if PartialRow(id, rows) {
        var row :| row in rows && row.id == id && row.disposition == Some(Criterion) && row.status == Uncertain
                   && |row.candidateCitations| > 0 && |row.postingCitations| > 0;
        assert PartiallySupportable(row);
      }
    }
  }

  lemma VerificationIff(v: Verification, review: Review)
    ensures VerificationRules(v, review) <==> VerificationAccepted(v, review)
  {
    hide Ids;
    hide Names;
    hide PartialRow;
    hide PartialIdsSupportable;
    FilterCongruent(review.requirements, IsCriterion, (row: Row) => row.disposition == Some(Criterion));
    FilterCongruent(review.requirements, IsStrength, (row: Row) => row.status == Strength);
    if v.partialIds.Some? {
      IdsIff(v.partialIds.value);
      PartialIdsIff(v.partialIds.value, review.requirements);
    }
    match v.version
    case IndependentV1 =>
    case PartialRelevanceV2 =>
  }

  // ---------------------------------------------------------- the source's units

  ghost predicate PlainName(name: string) {
    && name != "" && ('a' <= name[0] <= 'z' || 'A' <= name[0] <= 'Z')
    && forall i :: 0 < i < |name| ==>
         'a' <= name[i] <= 'z' || 'A' <= name[i] <= 'Z' || '0' <= name[i] <= '9'
  }

  /** A field of the source's own content. */
  ghost predicate SourcePath(path: string) {
    exists name :: PlainName(name) && path == "sourceContentJson." + name
  }

  ghost predicate FieldNamed(id: string) {
    exists name: string :: id == "source-field:" + name
  }

  function OpenClauses(review: Review): seq<Clause> {
    Filter(review.coverage.clauses, (c: Clause) => c.status != CertifiedNonrequirement)
  }

  function OpenFields(review: Review): seq<Field> {
    if review.coverage.metadata.None? then []
    else Filter(review.coverage.metadata.value, (f: Field) => !f.representedInBody)
  }

  /** What the review has to answer. */
  function Units(review: Review): seq<string> {
    Map(OpenClauses(review), (c: Clause) => c.clauseId) + Map(OpenFields(review), (f: Field) => f.fieldId)
  }

  ghost predicate FieldRules(f: Field, clauses: seq<Clause>) {
    && Readable(f.fieldId) && FieldNamed(f.fieldId) && SourcePath(f.path) && Readable(f.hash)
    && Names(f.bodyClauseIds)
    && (f.representedInBody ==>
          |f.bodyClauseIds| > 0
          && forall id :: id in f.bodyClauseIds ==> exists c :: c in clauses && c.clauseId == id)
  }

  ghost predicate CatalogRules(review: Review) {
    && review.coverage.clauses != [] && review.coverage.metadata.Some? && review.coverage.materialIds.Some?
    && Names(Map(review.coverage.clauses, (c: Clause) => c.clauseId))
    && (forall f :: f in review.coverage.metadata.value ==> FieldRules(f, review.coverage.clauses))
    && Distinct(Map(review.coverage.metadata.value, (f: Field) => f.fieldId))
    && Names(review.coverage.materialIds.value)
    && multiset(review.coverage.materialIds.value) == multiset(Units(review))
  }

  lemma PathIff(path: string)
    ensures FieldPath(path) <==> SourcePath(path)
  {
    if FieldPath(path) {
      var name := path[|PATH_PREFIX|..];
      assert path == "sourceContentJson." + name;
      assert PlainName(name);
    }
    if name :| PlainName(name) && path == "sourceContentJson." + name {
      assert path[|PATH_PREFIX|..] == name;
      assert forall i :: 0 <= i < |name| ==> path[|PATH_PREFIX| + i] == name[i];
      forall i | |PATH_PREFIX| < i < |path| ensures Letter(path[i]) || '0' <= path[i] <= '9' {
        assert path[i] == name[i - |PATH_PREFIX|];
      }
    }
  }

  lemma NamedIff(id: string)
    ensures StartsWith(id, FIELD_PREFIX) <==> FieldNamed(id)
  {
    if StartsWith(id, FIELD_PREFIX) {
      assert id == "source-field:" + id[|FIELD_PREFIX|..];
    }
  }

  lemma ClauseIdIn(clauses: seq<Clause>, id: string)
    ensures id in ClauseIds(clauses) <==> exists c :: c in clauses && c.clauseId == id
  {
    var ids := ClauseIds(clauses);
    if id in ids {
      var i :| 0 <= i < |ids| && ids[i] == id;
      assert clauses[i] in clauses;
    }
    if c :| c in clauses && c.clauseId == id {
      var i :| 0 <= i < |clauses| && clauses[i] == c;
      assert ids[i] == id;
    }
  }

  lemma FieldIff(f: Field, clauses: seq<Clause>)
    ensures FieldWellFormed(f, clauses) <==> FieldRules(f, clauses)
  {
    hide Text;
    hide Readable;
    hide StartsWith;
    hide FieldNamed;
    hide FieldPath;
    hide SourcePath;
    hide Ids;
    hide Names;
    hide ClauseIds;
    TextIff(f.fieldId);
    TextIff(f.hash);
    NamedIff(f.fieldId);
    PathIff(f.path);
    IdsIff(f.bodyClauseIds);
    forall id: string ensures id in ClauseIds(clauses) <==> exists c :: c in clauses && c.clauseId == id {
      ClauseIdIn(clauses, id);
    }
  }

  lemma UnitsAre(review: Review)
    ensures OpenClauses(review) == MaterialClauses(review) && OpenFields(review) == MaterialFields(review)
    ensures Units(review) == MaterialUnitIds(review)
  {
    FilterCongruent(review.coverage.clauses, IsMaterial, (c: Clause) => c.status != CertifiedNonrequirement);
    if review.coverage.metadata.Some? {
      FilterCongruent(review.coverage.metadata.value, IsMaterialField, (f: Field) => !f.representedInBody);
    }
  }

  lemma ClauseNamesIff(clauses: seq<Clause>)
    ensures Names(ClauseIds(clauses)) <==>
            Distinct(ClauseIds(clauses)) && forall c :: c in clauses ==> Text(c.clauseId)
  {
    hide Text;
    hide Readable;
    var ids := ClauseIds(clauses);
    forall s: string ensures Text(s) <==> Readable(s) {
      TextIff(s);
    }
    if forall c :: c in clauses ==> Text(c.clauseId) {
      forall i | 0 <= i < |ids| ensures Text(ids[i]) {
        assert clauses[i] in clauses;
      }
    }
    if forall i :: 0 <= i < |ids| ==> Readable(ids[i]) {
      forall c | c in clauses ensures Text(c.clauseId) {
        var i :| 0 <= i < |clauses| && clauses[i] == c;
        assert ids[i] == c.clauseId;
      }
    }
  }

  /** The catalogue, but for the number of rows. */
  lemma CatalogIff(review: Review)
    ensures CatalogRules(review) && |review.requirements| == |Units(review)| <==> UnitsAccepted(review)
  {
    hide FieldWellFormed;
    hide FieldRules;
    hide MaterialUnitIds;
    hide Units;
    hide Ids;
    hide Names;
    hide Text;
    hide Distinct;
    UnitsAre(review);
    ClauseNamesIff(review.coverage.clauses);
    forall f: Field ensures FieldWellFormed(f, review.coverage.clauses) <==> FieldRules(f, review.coverage.clauses) {
      FieldIff(f, review.coverage.clauses);
    }
    if review.coverage.materialIds.Some? {
      var ids := review.coverage.materialIds.value;
      IdsIff(ids);
      if Names(ids) {
        NamesDistinct(ids);
        SameIdsIff(Units(review), ids);
      }
    }
  }

  // ---------------------------------------------------------- rows and their units

  /** The parts of a row that only a complete review has. */
  ghost predicate ShapeRules(row: Row) {
    && row.originalRequirementIds.Some? && Names(row.originalRequirementIds.value) && row.disposition != None
    && (row.classification == Some(ConfirmedRequirement) || row.classification == Some(PossibleRequirement))
    && |row.postingCitations| == 1
    && forall c :: c in row.candidateCitations ==> c.mode == WholeFact && c.start == 0
  }

  /** The row cites a whole field that the body leaves open, from its start and by its path. */
  ghost predicate AnswersField(row: Row, fields: seq<Field>)
    requires |row.postingCitations| == 1
  {
    var cite := row.postingCitations[0];
    && cite.mode == WholeField && cite.start == 0 && FieldNamed(cite.clauseId)
    && cite.fieldPath.Some? && SourcePath(cite.fieldPath.value)
    && row.classification == Some(PossibleRequirement)
    && exists f :: f in fields && f.fieldId == cite.clauseId && f.path == cite.fieldPath.value
  }

  /** The row cites a whole clause that is not certified away, and says the same of it as the source. */
  ghost predicate AnswersClause(row: Row, clauses: seq<Clause>)
    requires |row.postingCitations| == 1
  {
    var cite := row.postingCitations[0];
    && cite.mode == WholeClause
    && exists c :: c in clauses && c.clauseId == cite.clauseId && row.classification == Some(c.status)
  }

  ghost predicate LinkRules(row: Row, review: Review) {
    && ShapeRules(row)
    && (AnswersField(row, OpenFields(review)) || AnswersClause(row, OpenClauses(review)))
  }

  /** Each row answers a unit, and each unit is answered by one row. */
  ghost predicate AnswerRules(review: Review) {
    && (forall i :: 0 <= i < |review.requirements| ==> LinkRules(review.requirements[i], review))
    && multiset(CitedIds(review.requirements)) == multiset(Units(review))
  }

  lemma FieldFound(fields: seq<Field>, id: string, path: Option<string>)
    requires Distinct(FieldIds(fields))
    ensures var found := Find(fields, (f: Field) => f.fieldId == id);
            (found.Some? && path == Some(found.value.path)) <==>
            path.Some? && exists f :: f in fields && f.fieldId == id && f.path == path.value
  {
    if f :| f in fields && f.fieldId == id && path == Some(f.path) {
      FindByKey(fields, (x: Field) => x.fieldId, f, (x: Field) => x.fieldId == id);
    }
  }

  lemma ClauseFound(clauses: seq<Clause>, id: string, status: Option<Classification>)
    requires Distinct(ClauseIds(clauses))
    ensures var found := Find(clauses, (c: Clause) => c.clauseId == id);
            (found.Some? && status == Some(found.value.status)) <==>
            exists c :: c in clauses && c.clauseId == id && status == Some(c.status)
  {
    if c :| c in clauses && c.clauseId == id && status == Some(c.status) {
      FindByKey(clauses, (x: Clause) => x.clauseId, c, (x: Clause) => x.clauseId == id);
    }
  }

  lemma LinkIff(row: Row, clauses: seq<Clause>, fields: seq<Field>)
    requires Distinct(FieldIds(fields)) && Distinct(ClauseIds(clauses))
    ensures RowAnswersUnit(row, clauses, fields) <==>
            ShapeRules(row) && (AnswersField(row, fields) || AnswersClause(row, clauses))
  {
    hide StartsWith;
    hide FieldNamed;
    hide FieldPath;
    hide SourcePath;
    hide Ids;
    hide Names;
    hide Distinct;
    hide Find;
    if row.originalRequirementIds.Some? {
      IdsIff(row.originalRequirementIds.value);
    }
    if |row.postingCitations| == 1 {
      var cite := row.postingCitations[0];
      NamedIff(cite.clauseId);
      if cite.fieldPath.Some? {
        PathIff(cite.fieldPath.value);
      }
      FieldFound(fields, cite.clauseId, cite.fieldPath);
      ClauseFound(clauses, cite.clauseId, row.classification);
    }
  }

  lemma UnitsDistinct(review: Review)
    requires CatalogRules(review)
    ensures Distinct(Units(review))
    ensures Distinct(ClauseIds(OpenClauses(review))) && Distinct(FieldIds(OpenFields(review)))
  {
    hide Names;
    NamesDistinct(review.coverage.materialIds.value);
    DistinctPermutation(review.coverage.materialIds.value, Units(review));
    var a, b := ClauseIds(OpenClauses(review)), FieldIds(OpenFields(review));
    assert Units(review) == a + b;
    forall i, j | 0 <= i < j < |a| ensures a[i] != a[j] {
      assert (a + b)[i] == a[i] && (a + b)[j] == a[j];
    }
    forall i, j | 0 <= i < j < |b| ensures b[i] != b[j] {
      assert (a + b)[|a| + i] == b[i] && (a + b)[|a| + j] == b[j];
    }
  }

  lemma AnswersIff(review: Review)
    requires CatalogRules(review)
    ensures AnswerRules(review) <==>
            && |review.requirements| == |Units(review)|
            && RowsLinked(review.requirements, MaterialClauses(review), MaterialFields(review))
  {
    hide CatalogRules;
    hide LinkRules;
    hide RowAnswersUnit;
    hide Distinct;
    hide CitedId;
    var rows, clauses, fields := review.requirements, MaterialClauses(review), MaterialFields(review);
    UnitsDistinct(review);
    UnitsAre(review);
    forall i | 0 <= i < |rows| ensures LinkRules(rows[i], review) == RowAnswersUnit(rows[i], clauses, fields) {
      LinkRowIff(rows[i], review);
    }
    SameIdsIff(CitedIds(rows), Units(review));
    if |rows| == |Units(review)| && RowsLinked(rows, clauses, fields) {
      LinkedRowsAreUnits(rows, clauses, fields);
    }
  }

  lemma LinkRowIff(row: Row, review: Review)
    requires Distinct(ClauseIds(OpenClauses(review))) && Distinct(FieldIds(OpenFields(review)))
    ensures LinkRules(row, review) <==> RowAnswersUnit(row, MaterialClauses(review), MaterialFields(review))
  {
    hide RowAnswersUnit;
    hide ShapeRules;
    hide AnswersField;
    hide AnswersClause;
    hide Distinct;
    UnitsAre(review);
    LinkIff(row, OpenClauses(review), OpenFields(review));
  }

  // -------------------------------------------------------------- a complete review

  /** A summary that counts the rows and says of them what they are. */
  ghost predicate FitRules(fit: EvidenceFit, rows: seq<Row>) {
    && fit.supported == Count(rows, (r: Row) => r.disposition == Some(Criterion) && r.status == Strength)
    && fit.uncertain == Count(rows, (r: Row) => r.disposition == Some(Criterion) && r.status == Uncertain)
    && fit.sourceUnknown == Count(rows, (r: Row) => r.disposition == Some(UnknownDisposition))
    && fit.context == Count(rows, (r: Row) => r.disposition == Some(Context))
    && fit.classificationUnknown == Count(rows, (r: Row) => r.classification == Some(PossibleRequirement))
    && fit.considered == Count(rows, (r: Row) => r.disposition != Some(Context))
    && (fit.status == NoCriteria <==> OnlyContext(rows))
    && (fit.status == NeedsEvidence <==> !OnlyContext(rows) && !SomeSupport(rows))
    && (fit.status == SupportsAll <==> SomeSupport(rows) && !SomethingOpen(rows))
    && (fit.supportLowerBound == None <==> OnlyContext(rows))
    && (fit.supportLowerBound.Some? ==>
          fit.considered != 0 && fit.supportLowerBound.value == fit.supported as real / fit.considered as real)
  }

  lemma FitIff(fit: EvidenceFit, rows: seq<Row>)
    requires forall row :: row in rows ==> row.disposition.Some?
    ensures FitRules(fit, rows) <==> fit == EvidenceSummary(rows)
  {
    hide OnlyContext;
    hide SomeSupport;
    hide SomethingOpen;
    hide EvidenceSummary;
    hide Count;
    SummaryCounts(rows);
    SummaryStatus(rows);
    ConsideredIff(rows);
  }

  lemma ConsideredIff(rows: seq<Row>)
    ensures Count(rows, (r: Row) => r.disposition != Some(Context)) == 0 <==> OnlyContext(rows)
  {
    SomeCounted(rows, (r: Row) => r.disposition != Some(Context));
  }

  ghost predicate CompletionRules(c: Completion, review: Review) {
    && review.coverage.metadata.Some? && c.consideredComplete && |c.unprocessedClauseIds| == 0
    && c.catalogClauseCount == |review.coverage.clauses| + |review.coverage.metadata.value|
    && c.reviewedMaterialClauseCount == |OpenClauses(review)| + |OpenFields(review)|
    && c.possibleRequirementCount ==
       Count(review.coverage.clauses, (x: Clause) => x.status == PossibleRequirement) + |OpenFields(review)|
    && c.catalogClauseCount <= 9007199254740991 && c.reviewedMaterialClauseCount <= 9007199254740991
    && c.possibleRequirementCount <= 9007199254740991
  }

  lemma CompletionIff(c: Completion, review: Review)
    ensures CompletionRules(c, review) <==> CompletionAccepted(c, review)
  {
    UnitsAre(review);
    FilterCongruent(review.coverage.clauses, IsPossible, (x: Clause) => x.status == PossibleRequirement);
  }

  ghost predicate CompleteRules(review: Review) {
    && review.completeContract && review.coverage.consideredComplete && review.coverage.sourceComplete
    && CatalogRules(review) && AnswerRules(review)
    && review.completion.Some? && CompletionRules(review.completion.value, review)
    && review.evidenceFit.Some? && FitRules(review.evidenceFit.value, review.requirements)
    && review.coverage.fullFit == review.evidenceFit
  }

  lemma DispositionsKnown(review: Review)
    requires AnswerRules(review)
    ensures forall row :: row in review.requirements ==> row.disposition.Some?
  {
    forall row | row in review.requirements ensures row.disposition.Some? {
      var i :| 0 <= i < |review.requirements| && review.requirements[i] == row;
      assert LinkRules(review.requirements[i], review);
    }
  }

  lemma CompleteIff(review: Review)
    ensures CompleteRules(review) <==> CompleteAccepted(review)
  {
    hide CatalogRules;
    hide AnswerRules;
    hide UnitsAccepted;
    hide RowsLinked;
    hide CompletionRules;
    hide CompletionAccepted;
    hide FitRules;
    hide EvidenceSummary;
    CatalogIff(review);
    if review.completion.Some? {
      CompletionIff(review.completion.value, review);
    }
    if CatalogRules(review) {
      AnswersIff(review);
    }
    if AnswerRules(review) && review.evidenceFit.Some? {
      DispositionsKnown(review);
      FitIff(review.evidenceFit.value, review.requirements);
    }
  }

  // ----------------------------------------------------------------------- advice

  function Weighed(review: Review): seq<Row> {
    Filter(review.requirements, (row: Row) => row.disposition != Some(Context))
  }

  /** A probability for the row: 0 unless both sides of a criterion are cited for it. */
  ghost predicate PairRules(pair: Pair, row: Row) {
    && pair.requirementId == row.id && 0.0 <= pair.probability <= 1.0
    && (pair.probability != 0.0 ==> pair.cited)
    && (pair.cited ==>
          row.disposition == Some(Criterion) && |row.candidateCitations| > 0 && |row.postingCitations| > 0)
  }

  predicate Convincing(pair: Pair) {
    pair.cited && pair.probability >= 0.85
  }

  /** Listed are the uncertain rows with a convincing pair, and only ids that have one. */
  ghost predicate ListedRules(ids: seq<string>, pairs: seq<Pair>, rows: seq<Row>)
    requires |pairs| == |rows|
  {
    && (forall i :: 0 <= i < |rows| && Convincing(pairs[i]) && rows[i].status == Uncertain ==>
          pairs[i].requirementId in ids)
    && forall id :: id in ids ==> Convinced(id, pairs)
  }

  ghost predicate Convinced(id: string, pairs: seq<Pair>) {
    exists i :: 0 <= i < |pairs| && pairs[i].requirementId == id && Convincing(pairs[i])
  }

  /** The arithmetic mean of the probabilities, none over no rows or more than a number counts exactly. */
  ghost predicate MeanOf(mean: Option<real>, pairs: seq<Pair>) {
    if |pairs| == 0 || |pairs| > 9007199254740991 then mean == None
    else mean.Some? && mean.value * |pairs| as real == ProbabilitySum(pairs)
  }

  ghost predicate AdviceRules(a: Advice, review: Review) {
    && review.mode == CompleteMaterial && review.evidenceFit.Some?
    && review.verification.Some? && review.verification.value.version == PartialRelevanceV2
    && review.verification.value.partialIds.Some? && Names(review.verification.value.partialIds.value)
    && a.denominator == review.evidenceFit.value.considered == |Weighed(review)| == |a.pairs|
    && (forall i :: 0 <= i < |a.pairs| ==> PairRules(a.pairs[i], Weighed(review)[i]))
    && review.verification.value.partialClaimCount == Some(Count(a.pairs, (pair: Pair) => pair.cited))
    && ListedRules(review.verification.value.partialIds.value, a.pairs, Weighed(review))
    && MeanOf(a.weightedMean, a.pairs)
  }

  lemma PairIff(pair: Pair, row: Row)
    ensures PairRules(pair, row) <==> PairAccepted(pair, row)
  {
  }

  lemma ListedIff(ids: seq<string>, pairs: seq<Pair>, rows: seq<Row>)
    requires |pairs| == |rows|
    ensures ListedRules(ids, pairs, rows) <==> PartialIdsMatchPairs(ids, pairs, rows)
  {
    forall id: string
      ensures Convinced(id, pairs) <==> exists p :: p in pairs && p.requirementId == id && Establishes(p)
    {
      if p :| p in pairs && p.requirementId == id && Establishes(p) {
        var i :| 0 <= i < |pairs| && pairs[i] == p;
        assert Convincing(pairs[i]);
      }
      if i :| 0 <= i < |pairs| && pairs[i].requirementId == id && Convincing(pairs[i]) {
        assert pairs[i] in pairs && Establishes(pairs[i]);
      }
    }
  }

  lemma MeanIff(mean: Option<real>, pairs: seq<Pair>)
    requires forall i :: 0 <= i < |pairs| ==> 0.0 <= pairs[i].probability <= 1.0
    ensures MeanOf(mean, pairs) <==> mean == RelevanceMean(pairs, |pairs|)
  {
    if |pairs| > 0 && mean.Some? {
      QuotientIff(mean.value, ProbabilitySum(pairs), |pairs| as real);
    }
  }

  lemma QuotientIff(q: real, a: real, n: real)
    requires n > 0.0
    ensures q * n == a <==> q == a / n
  {
  }

  lemma AdviceIff(a: Advice, review: Review)
    requires review.mode == CompleteMaterial ==> CompleteRules(review)
    ensures AdviceRules(a, review) <==> AdviceAccepted(a, review)
  {
    hide Names;
    hide Ids;
    hide CompleteRules;
    hide PairRules;
    hide PairAccepted;
    hide ListedRules;
    hide PartialIdsMatchPairs;
    hide MeanOf;
    hide RelevanceMean;
    FilterCongruent(review.requirements, IsConsidered, (row: Row) => row.disposition != Some(Context));
    FilterCongruent(a.pairs, IsCited, (pair: Pair) => pair.cited);
    forall pair, row ensures PairRules(pair, row) <==> PairAccepted(pair, row) {
      PairIff(pair, row);
    }
    if review.mode == CompleteMaterial {
      ConsideredIsWeighed(review);
      if review.verification.Some? && review.verification.value.partialIds.Some? {
        IdsIff(review.verification.value.partialIds.value);
        if |a.pairs| == |Weighed(review)| {
          ListedIff(review.verification.value.partialIds.value, a.pairs, Weighed(review));
          if PairsAccepted(a.pairs, Weighed(review)) {
            ProbabilitiesShare(a.pairs, Weighed(review));
            MeanIff(a.weightedMean, a.pairs);
          }
        }
      }
    }
  }

  lemma ConsideredIsWeighed(review: Review)
    requires CompleteRules(review)
    ensures review.evidenceFit.Some? && review.evidenceFit.value.considered == |Weighed(review)|
  {
  }

  lemma ProbabilitiesShare(pairs: seq<Pair>, rows: seq<Row>)
    requires PairsAccepted(pairs, rows)
    ensures forall i :: 0 <= i < |pairs| ==> 0.0 <= pairs[i].probability <= 1.0
  {
    forall i | 0 <= i < |pairs| ensures 0.0 <= pairs[i].probability <= 1.0 {
      assert PairAccepted(pairs[i], rows[i]);
    }
  }

  // ------------------------------------------------------------------- acceptance

  ghost predicate Rules(review: Review) {
    && HeaderRules(review) && RowsRules(review)
    && (review.verification.Some? ==> VerificationRules(review.verification.value, review))
    && (review.mode == CompleteMaterial ==> CompleteRules(review))
    && (review.advice.Some? ==> AdviceRules(review.advice.value, review))
  }

  /** The validator accepts exactly the reviews that keep all these rules. */
  lemma AcceptedIffRules(review: Review)
    ensures Accepted(review) <==> Rules(review)
  {
    hide HeaderRules;
    hide HeaderAccepted;
    hide RowsRules;
    hide RowsAccepted;
    hide VerificationRules;
    hide VerificationAccepted;
    hide CompleteRules;
    hide CompleteAccepted;
    hide AdviceRules;
    hide AdviceAccepted;
    HeaderIff(review);
    CompleteIff(review);
    if HeaderRules(review) {
      RowsIff(review);
    }
    if review.verification.Some? {
      VerificationIff(review.verification.value, review);
    }
    if review.advice.Some? && (review.mode == CompleteMaterial ==> CompleteRules(review)) {
      AdviceIff(review.advice.value, review);
    }
  }

  // --------------------------------------------------------------- what readers see

  /** A record shows its complete review exactly when its status is known and the stored review keeps the rules. */
  lemma CompleteShownIff(record: ReviewRecord)
    ensures var shown, stored := CompleteReview(record), record.projection;
            && (shown.Some? <==>
                  !record.statusUnknown && stored.Some? && stored.value.mode == CompleteMaterial && Rules(stored.value))
            && (shown.Some? ==> shown == stored)
  {
    hide Rules;
    hide Accepted;
    hide CompleteRules;
    if record.projection.Some? {
      AcceptedIffRules(record.projection.value);
      if record.projection.value.mode == CompleteMaterial && Rules(record.projection.value) {
        FitStored(record.projection.value);
      }
    }
  }

  lemma FitStored(review: Review)
    requires Rules(review) && review.mode == CompleteMaterial
    ensures review.evidenceFit.Some?
  {
  }

  /** How many uncertain rows the second verification says are supported in part. */
  function VerifiedPartials(review: Review): int {
    if review.verification.Some? && review.verification.value.version == PartialRelevanceV2
       && review.verification.value.verifiedPartialCount.Some?
    then review.verification.value.verifiedPartialCount.value else 0
  }

  /** `q` is the share of `a` among `n`, if there are any. */
  predicate ShareOf(q: Option<real>, a: int, n: int) {
    if n == 0 then q == None else q.Some? && q.value * n as real == a as real
  }

  /**
   What an accepted complete review shows: its supported rows and their share of the weighed ones, the mean of its
   advice, and its verified partial rows, if any, with their share.
   */
  ghost predicate SupportOf(s: CitedSupport, review: Review) {
    && s.supported == Count(review.requirements, (r: Row) => r.disposition == Some(Criterion) && r.status == Strength)
    && ShareOf(s.supportLowerBound, s.supported, |Weighed(review)|)
    && s.relevanceMean == (if review.advice.Some? then review.advice.value.weightedMean else None)
    && (if VerifiedPartials(review) > 0 then
          s.partialSupported == Some(VerifiedPartials(review))
          && ShareOf(s.partialLowerBound, VerifiedPartials(review), |Weighed(review)|)
        else s.partialSupported == None && s.partialLowerBound == None)
  }

  lemma SharesAre(a: int, n: int)
    requires n > 0
    ensures ShareOf(Some(a as real / n as real), a, n)
  {
    QuotientIff(a as real / n as real, a as real, n as real);
  }

  lemma CompleteSupport(record: ReviewRecord)
    requires CompleteReview(record).Some?
    ensures CurrentSupport(record).Some? && SupportOf(CurrentSupport(record).value, CompleteReview(record).value)
  {
    hide Accepted;
    hide ShareOf;
    hide EvidenceSummary;
    var review := CompleteReview(record).value;
    var fit := review.evidenceFit.value;
    CountsMean(review);
    assert fit.considered == |Weighed(review)|;
    NoShare(fit.supported, VerifiedPartials(review));
    if fit.considered != 0 {
      SharesAre(fit.supported, fit.considered);
      SharesAre(VerifiedPartials(review), fit.considered);
    }
  }

  lemma NoShare(a: int, b: int)
    ensures ShareOf(None, a, 0) && ShareOf(None, b, 0)
  {
  }

  /**
   Every record shows the support of its complete review; without one, the count of a partial assessment, unless a
   complete review is there that cannot be read.
   */
  lemma SupportShown(record: ReviewRecord)
    ensures var s, complete := CurrentSupport(record), CompleteReview(record);
            && (complete.Some? ==> s.Some? && SupportOf(s.value, complete.value))
            && (complete.None? ==>
                  (s.Some? <==>
                     && !record.statusUnknown && record.partialSupported.Some?
                     && !(record.projection.Some? && record.projection.value.mode == CompleteMaterial)))
            && (complete.None? && s.Some? ==>
                  s.value == CitedSupport(record.partialSupported.value, None, None, None, None))
  {
    hide Accepted;
    hide SupportOf;
    if CompleteReview(record).Some? {
      CompleteSupport(record);
    }
  }

  /** The sum a mean is taken of grows pair by pair. */
  lemma {:induction false} SumGrows(pairs: seq<Pair>, p: Pair)
    ensures ProbabilitySum([]) == 0.0 && ProbabilitySum(pairs + [p]) == ProbabilitySum(pairs) + p.probability
  {
    if pairs == [] {
      assert ([] + [p])[1..] == [];
    } else {
      assert (pairs + [p])[1..] == pairs[1..] + [p];
      SumGrows(pairs[1..], p);
    }
  }
}
