/** What acceptance by the presentation validator implies, none of which the validator compares directly. */
module FitReviewTheorems {
  import opened Sequences
  import opened JsNumbers
  import opened FitReview

  ghost predicate AcceptedComplete(review: Review) {
    Accepted(review) && review.mode == CompleteMaterial
  }

  // ------------------------------------------------------------ the bijection

  lemma CitedIdIsMaterialUnit(row: Row, material: seq<Clause>, fields: seq<Field>)
    requires RowAnswersUnit(row, material, fields)
    ensures CitedId(row) in ClauseIds(material) + FieldIds(fields)
  {
    var cite := row.postingCitations[0];
    var units := ClauseIds(material) + FieldIds(fields);
    if cite.mode == WholeField {
      var field := Find(fields, (f: Field) => f.fieldId == cite.clauseId).value;
      var k :| 0 <= k < |fields| && fields[k] == field;
      assert FieldIds(fields)[k] == CitedId(row);
      assert units[|material| + k] == CitedId(row);
    } else {
      var source := Find(material, (c: Clause) => c.clauseId == cite.clauseId).value;
      var k :| 0 <= k < |material| && material[k] == source;
      assert units[k] == CitedId(row);
    }
  }

  lemma LinkedRowsAreUnits(rows: seq<Row>, material: seq<Clause>, fields: seq<Field>)
    requires RowsLinked(rows, material, fields)
    requires Distinct(ClauseIds(material) + FieldIds(fields)) && |rows| == |material| + |fields|
    ensures multiset(CitedIds(rows)) == multiset(ClauseIds(material) + FieldIds(fields))
  {
    var cited, units := CitedIds(rows), ClauseIds(material) + FieldIds(fields);
    forall id | id in cited ensures id in units {
      var i :| 0 <= i < |cited| && cited[i] == id;
      CitedIdIsMaterialUnit(rows[i], material, fields);
    }
    Pigeonhole(cited, units);
  }

  /**
   Rows and material units correspond one to one: the ids the rows cite, the material units and the
   reviewed material ids are the same distinct ids, in possibly different orders.
   */
  lemma RowsAreMaterialUnits(review: Review)
    requires AcceptedComplete(review)
    ensures Distinct(CitedIds(review.requirements))
    ensures multiset(CitedIds(review.requirements)) == multiset(MaterialUnitIds(review))
    ensures multiset(review.coverage.materialIds.value) == multiset(MaterialUnitIds(review))
  {
    LinkedRowsAreUnits(review.requirements, MaterialClauses(review), MaterialFields(review));
    Pigeonhole(MaterialUnitIds(review), review.coverage.materialIds.value);
  }

  /** Every material unit is answered by exactly one row. */
  lemma UnitHasOneRow(review: Review, unit: string)
    requires AcceptedComplete(review) && unit in MaterialUnitIds(review)
    ensures var cited := CitedIds(review.requirements);
            exists i :: 0 <= i < |cited| && cited[i] == unit
                        && forall j :: 0 <= j < |cited| && cited[j] == unit ==> j == i
  {
    RowsAreMaterialUnits(review);
    SameIdOnce(CitedIds(review.requirements), MaterialUnitIds(review), unit);
  }

  lemma SameIdOnce(cited: seq<string>, units: seq<string>, unit: string)
    requires Distinct(cited) && multiset(cited) == multiset(units) && unit in units
    ensures exists i :: 0 <= i < |cited| && cited[i] == unit
                        && forall j :: 0 <= j < |cited| && cited[j] == unit ==> j == i
  {
    assert unit in multiset(units);
    var i :| 0 <= i < |cited| && cited[i] == unit;
  }

  // --------------------------------------------------------- count identities

  /** The ids of the units that may be requirements: possible clauses and unrepresented fields. */
  ghost predicate PossibleUnit(id: string, material: seq<Clause>, fields: seq<Field>) {
    || (exists c :: c in material && c.clauseId == id && IsPossible(c))
    || (exists f :: f in fields && f.fieldId == id)
  }

  lemma ClausePossibleIffUnitPossible(c: Clause, material: seq<Clause>, fields: seq<Field>)
    requires Distinct(ClauseIds(material) + FieldIds(fields)) && c in material
    ensures IsPossible(c) <==> PossibleUnit(c.clauseId, material, fields)
  {
    var units := ClauseIds(material) + FieldIds(fields);
    var i :| 0 <= i < |material| && material[i] == c;
    assert units[i] == c.clauseId;
    forall d | d in material && d.clauseId == c.clauseId ensures d == c {
      var k :| 0 <= k < |material| && material[k] == d;
      assert units[k] == d.clauseId;
    }
    forall f | f in fields ensures f.fieldId != c.clauseId {
      var k :| 0 <= k < |fields| && fields[k] == f;
      assert units[|material| + k] == f.fieldId;
    }
  }

  lemma RowUnclassifiedIffUnitPossible(row: Row, material: seq<Clause>, fields: seq<Field>)
    requires Distinct(ClauseIds(material) + FieldIds(fields))
    requires RowAnswersUnit(row, material, fields)
    ensures IsUnclassified(row) <==> PossibleUnit(CitedId(row), material, fields)
  {
    var cite := row.postingCitations[0];
    if cite.mode == WholeField {
      var field := Find(fields, (f: Field) => f.fieldId == cite.clauseId).value;
      assert field in fields && field.fieldId == CitedId(row);
    } else {
      var source := Find(material, (c: Clause) => c.clauseId == cite.clauseId).value;
      ClausePossibleIffUnitPossible(source, material, fields);
    }
  }

  lemma PossibleUnitCount(material: seq<Clause>, fields: seq<Field>)
    requires Distinct(ClauseIds(material) + FieldIds(fields))
    ensures Count(ClauseIds(material) + FieldIds(fields), id => PossibleUnit(id, material, fields))
         == Count(material, IsPossible) + |fields|
  {
    var possible := id => PossibleUnit(id, material, fields);
    FilterAppend(ClauseIds(material), FieldIds(fields), possible);
    forall c | c in material ensures IsPossible(c) == possible(c.clauseId) {
      ClausePossibleIffUnitPossible(c, material, fields);
    }
    FilterMap(material, (c: Clause) => c.clauseId, IsPossible, possible);
    FilterAll(FieldIds(fields), possible) by {
      forall id | id in FieldIds(fields) ensures possible(id) {
        var k :| 0 <= k < |fields| && FieldIds(fields)[k] == id;
        assert fields[k] in fields && fields[k].fieldId == id;
      }
    }
  }

  /** As many linked rows are unclassified as there are units that may be requirements. */
  lemma UnclassifiedRowCount(rows: seq<Row>, material: seq<Clause>, fields: seq<Field>)
    requires RowsLinked(rows, material, fields)
    requires Distinct(ClauseIds(material) + FieldIds(fields)) && |rows| == |material| + |fields|
    ensures Count(rows, IsUnclassified) == Count(material, IsPossible) + |fields|
  {
    var possible := id => PossibleUnit(id, material, fields);
    forall row | row in rows ensures IsUnclassified(row) == possible(CitedId(row)) {
      var i :| 0 <= i < |rows| && rows[i] == row;
      RowUnclassifiedIffUnitPossible(rows[i], material, fields);
    }
    FilterMap(rows, CitedId, IsUnclassified, possible);
    LinkedRowsAreUnits(rows, material, fields);
    FilterPermutation(CitedIds(rows), ClauseIds(material) + FieldIds(fields), possible);
    PossibleUnitCount(material, fields);
  }

  lemma {:induction false} DispositionPartition(rows: seq<Row>)
    ensures Count(rows, IsSupported) + Count(rows, IsUncertain) + Count(rows, IsSourceUnknown)
          + Count(rows, IsContext) == |rows|
    ensures Count(rows, IsConsidered) == |rows| - Count(rows, IsContext)
  {
    if rows == [] {
    } else {
      DispositionPartition(rows[1..]);
    }
  }

  /** The summary's unknown count is the completion's possible-requirement count, and the rows add up. */
  lemma CountIdentities(review: Review)
    requires AcceptedComplete(review)
    ensures review.evidenceFit.value.classificationUnknown == review.completion.value.possibleRequirementCount
    ensures review.evidenceFit.value.considered + review.evidenceFit.value.context
         == review.completion.value.reviewedMaterialClauseCount
  {
    UnclassifiedRowCount(review.requirements, MaterialClauses(review), MaterialFields(review));
    FilterFilter(review.coverage.clauses, IsMaterial, IsPossible, IsPossible);
    DispositionPartition(review.requirements);
  }

  // ------------------------------------------------------- full support

  ghost predicate RowsBacked(rows: seq<Row>) {
    forall row :: row in rows ==> row.disposition.Some? && (IsStrength(row) ==> CitesBothSides(row))
  }

  lemma AcceptedRowsBacked(review: Review)
    requires AcceptedComplete(review)
    ensures RowsBacked(review.requirements)
  {
    forall i | 0 <= i < |review.requirements|
      ensures var row := review.requirements[i];
              row.disposition.Some? && (IsStrength(row) ==> CitesBothSides(row))
    {
      assert RowWellFormed(review.requirements[i], review);
      assert RowAnswersUnit(review.requirements[i], MaterialClauses(review), MaterialFields(review));
    }
  }

  lemma FullySupportedRows(rows: seq<Row>)
    requires EvidenceSummary(rows).status == SupportsAll && RowsBacked(rows)
    ensures EvidenceSummary(rows).classificationUnknown == 0
    ensures forall row :: row in rows ==>
              IsContext(row) || (IsCriterion(row) && IsStrength(row) && CitesBothSides(row))
    ensures exists row :: row in rows && IsSupported(row)
  {
    assert Filter(rows, IsUncertain) == [] && Filter(rows, IsSourceUnknown) == [];
    forall row | row in rows
      ensures IsContext(row) || (IsCriterion(row) && IsStrength(row) && CitesBothSides(row))
    {
      assert !IsUncertain(row) && !IsSourceUnknown(row) by {
        assert row !in Filter(rows, IsUncertain) && row !in Filter(rows, IsSourceUnknown);
      }
      match row.disposition.value {
        case Criterion =>
        case Context =>
        case UnknownDisposition =>
      }
    }
    assert Filter(rows, IsSupported)[0] in rows;
  }

  /**
   A review that reports support for all reviewed criteria leaves nothing unclassified in the source,
   and every row is context or a strength cited on both sides.
   */
  lemma SupportsAllMeansNothingOpen(review: Review)
    requires AcceptedComplete(review) && review.evidenceFit.value.status == SupportsAll
    ensures forall c :: c in review.coverage.clauses ==> !IsPossible(c)
    ensures MaterialFields(review) == []
    ensures forall row :: row in review.requirements ==>
              IsContext(row) || (IsCriterion(row) && IsStrength(row) && CitesBothSides(row))
    ensures exists row :: row in review.requirements && IsSupported(row)
  {
    CountIdentities(review);
    StoredFit(review);
    AcceptedRowsBacked(review);
    FullySupportedRows(review.requirements);
    assert Filter(review.coverage.clauses, IsPossible) == [];
  }

  // ---------------------------------------- the summary, from the rows' own fields

  ghost predicate SomeSupport(rows: seq<Row>) {
    exists row :: row in rows && row.disposition == Some(Criterion) && row.status == Strength
  }

  ghost predicate SomethingOpen(rows: seq<Row>) {
    || (exists row :: row in rows && row.disposition != Some(Context)
                      && (row.status == Uncertain || row.disposition == Some(UnknownDisposition)))
    || (exists row :: row in rows && row.classification == Some(PossibleRequirement))
  }

  ghost predicate OnlyContext(rows: seq<Row>) {
    forall row :: row in rows ==> row.disposition == Some(Context)
  }

  lemma SomeCounted(rows: seq<Row>, p: Row -> bool)
    ensures Count(rows, p) > 0 <==> exists row :: row in rows && p(row)
  {
    if Count(rows, p) > 0 {
      assert Filter(rows, p)[0] in Filter(rows, p);
    }
    if row :| row in rows && p(row) {
      assert row in Filter(rows, p);
    }
  }

  lemma CriterionSides(row: Row)
    requires row.disposition.Some?
    ensures IsSupported(row) <==> row.disposition == Some(Criterion) && row.status == Strength
    ensures IsUncertain(row) <==> row.disposition == Some(Criterion) && row.status == Uncertain
  {
    match row.disposition.value
    case Criterion =>
    case Context =>
    case UnknownDisposition =>
  }

  lemma SummaryStatus(rows: seq<Row>)
    requires forall row :: row in rows ==> row.disposition.Some?
    ensures var status := EvidenceSummary(rows).status;
            && (status == NoCriteria <==> OnlyContext(rows))
            && (status == NeedsEvidence <==> !OnlyContext(rows) && !SomeSupport(rows))
            && (status == SupportsAll <==> SomeSupport(rows) && !SomethingOpen(rows))
            && (status == SupportedWithUncertainties <==> SomeSupport(rows) && SomethingOpen(rows))
  {
    hide Count;
    SomeCounted(rows, IsSupported);
    SomeCounted(rows, IsUncertain);
    SomeCounted(rows, IsSourceUnknown);
    SomeCounted(rows, IsUnclassified);
    forall row | row in rows
      ensures IsSupported(row) <==> row.disposition == Some(Criterion) && row.status == Strength
      ensures IsUncertain(row) <==> row.disposition == Some(Criterion) && row.status == Uncertain
    {
      CriterionSides(row);
    }
  }

  /** The stored status says about the rows what its name says. */
  lemma StatusMeans(review: Review)
    requires AcceptedComplete(review)
    ensures var rows, status := review.requirements, review.evidenceFit.value.status;
            && (status == NoCriteria <==> OnlyContext(rows))
            && (status == NeedsEvidence <==> !OnlyContext(rows) && !SomeSupport(rows))
            && (status == SupportsAll <==> SomeSupport(rows) && !SomethingOpen(rows))
            && (status == SupportedWithUncertainties <==> SomeSupport(rows) && SomethingOpen(rows))
  {
    hide Accepted;
    hide EvidenceSummary;
    StoredFit(review);
    AcceptedRowsBacked(review);
    SummaryStatus(review.requirements);
  }

  lemma SummaryCounts(rows: seq<Row>)
    requires forall row :: row in rows ==> row.disposition.Some?
    ensures var fit := EvidenceSummary(rows);
            && fit.supported == Count(rows, (r: Row) => r.disposition == Some(Criterion) && r.status == Strength)
            && fit.uncertain == Count(rows, (r: Row) => r.disposition == Some(Criterion) && r.status == Uncertain)
            && fit.sourceUnknown == Count(rows, (r: Row) => r.disposition == Some(UnknownDisposition))
            && fit.context == Count(rows, (r: Row) => r.disposition == Some(Context))
            && fit.classificationUnknown == Count(rows, (r: Row) => r.classification == Some(PossibleRequirement))
            && fit.considered == Count(rows, (r: Row) => r.disposition != Some(Context))
            && fit.supportLowerBound ==
               if fit.considered == 0 then None else Some(fit.supported as real / fit.considered as real)
  {
    forall row | row in rows
      ensures IsSupported(row) <==> row.disposition == Some(Criterion) && row.status == Strength
      ensures IsUncertain(row) <==> row.disposition == Some(Criterion) && row.status == Uncertain
    {
      CriterionSides(row);
    }
    FilterCongruent(rows, IsSupported, (r: Row) => r.disposition == Some(Criterion) && r.status == Strength);
    FilterCongruent(rows, IsUncertain, (r: Row) => r.disposition == Some(Criterion) && r.status == Uncertain);
    FilterCongruent(rows, IsSourceUnknown, (r: Row) => r.disposition == Some(UnknownDisposition));
    FilterCongruent(rows, IsContext, (r: Row) => r.disposition == Some(Context));
    FilterCongruent(rows, IsUnclassified, (r: Row) => r.classification == Some(PossibleRequirement));
    FilterCongruent(rows, IsConsidered, (r: Row) => r.disposition != Some(Context));
    DispositionPartition(rows);
  }

  /** Every stored count is the number of rows its name says, and the bound is their ratio. */
  lemma CountsMean(review: Review)
    requires AcceptedComplete(review)
    ensures var rows, fit := review.requirements, review.evidenceFit.value;
            && fit.supported == Count(rows, (r: Row) => r.disposition == Some(Criterion) && r.status == Strength)
            && fit.uncertain == Count(rows, (r: Row) => r.disposition == Some(Criterion) && r.status == Uncertain)
            && fit.sourceUnknown == Count(rows, (r: Row) => r.disposition == Some(UnknownDisposition))
            && fit.context == Count(rows, (r: Row) => r.disposition == Some(Context))
            && fit.classificationUnknown == Count(rows, (r: Row) => r.classification == Some(PossibleRequirement))
            && fit.considered == Count(rows, (r: Row) => r.disposition != Some(Context))
            && fit.supportLowerBound ==
               if fit.considered == 0 then None else Some(fit.supported as real / fit.considered as real)
  {
    hide Accepted;
    hide EvidenceSummary;
    StoredFit(review);
    AcceptedRowsBacked(review);
    SummaryCounts(review.requirements);
  }

  // -------------------------------------------------------- partial support

  lemma RowIdIsKey(rows: seq<Row>, a: Row, b: Row)
    requires Distinct(RowIds(rows)) && a in rows && b in rows && a.id == b.id
    ensures a == b
  {
    var i :| 0 <= i < |rows| && rows[i] == a;
    var k :| 0 <= k < |rows| && rows[k] == b;
    assert RowIds(rows)[i] == RowIds(rows)[k];
  }

  lemma SupportableIdsFit(ids: seq<string>, rows: seq<Row>)
    requires Distinct(ids) && PartialIdsSupportable(ids, rows)
    ensures |ids| <= Count(rows, IsUncertain)
  {
    var open := Filter(rows, IsUncertain);
    forall id | id in ids ensures id in RowIds(open) {
      var row :| row in rows && row.id == id && PartiallySupportable(row);
      assert IsUncertain(row);
      var k :| 0 <= k < |open| && open[k] == row;
      assert RowIds(open)[k] == id;
    }
    DistinctSubset(ids, RowIds(open));
  }

  /** The verified partial ids inject into the uncertain rows. */
  lemma PartialIdsAreUncertainRows(review: Review)
    requires AcceptedComplete(review)
    requires review.verification.Some? && review.verification.value.version == PartialRelevanceV2
    ensures review.verification.value.verifiedPartialCount.Some?
    ensures 0 <= review.verification.value.verifiedPartialCount.value <= review.evidenceFit.value.uncertain
  {
    SupportableIdsFit(review.verification.value.partialIds.value, review.requirements);
  }

  lemma RatioBounds(a: int, n: int)
    requires 0 <= a <= n && n > 0
    ensures 0.0 <= a as real / n as real <= 1.0
    ensures a > 0 ==> a as real / n as real > 0.0
  {
  }

  lemma RatioSum(a: int, b: int, n: int)
    requires 0 <= a && 0 <= b && a + b <= n && n > 0
    ensures a as real / n as real + b as real / n as real <= 1.0
  {
    assert a as real / n as real + b as real / n as real == (a + b) as real / n as real;
    RatioBounds(a + b, n);
  }

  /** The stored counts of a complete review are counts, and its ratio is their ratio. */
  lemma StoredFit(review: Review)
    requires AcceptedComplete(review)
    ensures review.evidenceFit == Some(EvidenceSummary(review.requirements))
  {
  }

  ghost predicate SharesBounded(s: CitedSupport) {
    && s.supported >= 0
    && (s.supportLowerBound.Some? ==> 0.0 <= s.supportLowerBound.value <= 1.0)
    && (s.partialSupported.Some? ==> s.partialSupported.value >= 1 && s.partialLowerBound.Some?)
    && (s.partialLowerBound.Some? ==>
          && s.supportLowerBound.Some?
          && 0.0 < s.partialLowerBound.value
          && s.supportLowerBound.value + s.partialLowerBound.value <= 1.0)
  }

  lemma SummaryShares(rows: seq<Row>, mean: Option<real>, partial: Option<int>)
    requires partial.Some? ==> 1 <= partial.value <= EvidenceSummary(rows).uncertain
    ensures var fit := EvidenceSummary(rows);
            SharesBounded(CitedSupport(
              fit.supported, fit.supportLowerBound, mean, partial,
              if partial.Some? && fit.considered != 0
              then Some(partial.value as real / fit.considered as real)
              else None))
  {
    var fit := EvidenceSummary(rows);
    if fit.considered > 0 {
      RatioBounds(fit.supported, fit.considered);
    }
    if partial.Some? {
      RatioBounds(partial.value, fit.considered);
      RatioSum(fit.supported, partial.value, fit.considered);
    }
  }

  /**
   Strict support and verified partial support are disjoint shares of the considered rows: each bound is a
   share, and together they are at most one.
   */
  lemma SupportBoundsAtMostOne(record: ReviewRecord)
    requires CurrentSupport(record).Some?
    ensures SharesBounded(CurrentSupport(record).value)
  {
    if CompleteReview(record).Some? {
      var review := record.projection.value;
      var s := CurrentSupport(record).value;
      StoredFit(review);
      if s.partialSupported.Some? {
        PartialIdsAreUncertainRows(review);
      }
      SummaryShares(review.requirements, s.relevanceMean, s.partialSupported);
    }
  }

  // ------------------------------------------------------ advisory relevance

  lemma EstablishedIds(ids: seq<string>, pairs: seq<Pair>, rows: seq<Row>, id: string)
    requires Distinct(RowIds(rows)) && PartialIdsSupportable(ids, rows)
    requires PairsAccepted(pairs, Filter(rows, IsConsidered))
    requires PartialIdsMatchPairs(ids, pairs, Filter(rows, IsConsidered))
    ensures id in ids <==>
            exists i :: 0 <= i < |pairs| && pairs[i].requirementId == id && Establishes(pairs[i])
              && Filter(rows, IsConsidered)[i].id == id
              && Filter(rows, IsConsidered)[i].status == Uncertain
  {
    var considered := Filter(rows, IsConsidered);
    if id in ids {
      var p :| p in pairs && p.requirementId == id && Establishes(p);
      var i :| 0 <= i < |pairs| && pairs[i] == p;
      assert PairAccepted(pairs[i], considered[i]);
      var row :| row in rows && row.id == id && PartiallySupportable(row);
      assert considered[i] in considered;
      RowIdIsKey(rows, row, considered[i]);
    }
  }

  /** The partial ids are exactly the uncertain considered rows whose cited probability reaches 0.85. */
  lemma PartialIdsAreEstablished(review: Review, id: string)
    requires AcceptedComplete(review) && review.advice.Some?
    ensures var pairs, considered := review.advice.value.pairs, Filter(review.requirements, IsConsidered);
            id in review.verification.value.partialIds.value <==>
            exists i :: 0 <= i < |pairs| && pairs[i].requirementId == id && Establishes(pairs[i])
              && considered[i].id == id && considered[i].status == Uncertain
  {
    EstablishedIds(review.verification.value.partialIds.value, review.advice.value.pairs, review.requirements, id);
  }

  lemma {:induction false} ProbabilitySumBound(pairs: seq<Pair>, rows: seq<Row>)
    requires PairsAccepted(pairs, rows)
    ensures 0.0 <= ProbabilitySum(pairs) <= Count(pairs, IsCited) as real
    ensures forall p :: p in pairs ==> 0.0 <= p.probability <= 1.0
  {
    if pairs == [] {
    } else {
      assert PairsAccepted(pairs[1..], rows[1..]);
      assert PairAccepted(pairs[0], rows[0]);
      ProbabilitySumBound(pairs[1..], rows[1..]);
    }
  }

  lemma MeanBound(pairs: seq<Pair>, rows: seq<Row>, denominator: int)
    requires PairsAccepted(pairs, rows) && denominator == |pairs| && SafeCount(denominator)
    ensures RelevanceMean(pairs, denominator).None? <==> denominator == 0
    ensures denominator != 0 ==>
              && 0.0 <= RelevanceMean(pairs, denominator).value
              && RelevanceMean(pairs, denominator).value <= Count(pairs, IsCited) as real / denominator as real
  {
    ProbabilitySumBound(pairs, rows);
    if denominator != 0 {
      DivideMonotone(ProbabilitySum(pairs), Count(pairs, IsCited) as real, denominator as real);
    }
  }

  lemma DivideMonotone(a: real, b: real, n: real)
    requires 0.0 <= a <= b && n > 0.0
    ensures 0.0 <= a / n <= b / n
  {
  }

  lemma AdviceParts(review: Review)
    requires AcceptedComplete(review) && review.advice.Some?
    ensures var a, considered := review.advice.value, Filter(review.requirements, IsConsidered);
            && PairsAccepted(a.pairs, considered)
            && a.denominator == EvidenceSummary(review.requirements).considered
            && a.weightedMean == RelevanceMean(a.pairs, a.denominator)
            && review.verification.Some?
            && review.verification.value.partialClaimCount == Some(Count(a.pairs, IsCited) as int)
            && Count(a.pairs, IsCited) <= Count(review.requirements, IsCriterion)
            && |review.requirements| == review.completion.value.reviewedMaterialClauseCount <= MAX_SAFE_INTEGER
  {
    var v := review.verification.value;
    assert VerificationAccepted(v, review);
  }

  /** An accepted mean lies between zero and the cited share of the considered rows. */
  lemma WeightedMeanBound(review: Review)
    requires AcceptedComplete(review) && review.advice.Some?
    ensures review.verification.Some? && review.verification.value.partialClaimCount.Some?
    ensures var a, cited := review.advice.value, review.verification.value.partialClaimCount.value;
            && (a.weightedMean.None? <==> a.denominator == 0)
            && (a.denominator != 0 ==>
                  && 0.0 <= a.weightedMean.value <= cited as real / a.denominator as real
                  && cited as real / a.denominator as real <= 1.0)
  {
    AdviceParts(review);
    var a, rows := review.advice.value, review.requirements;
    DispositionPartition(rows);
    CountMonotone(rows, IsCriterion, IsConsidered);
    MeanBound(a.pairs, Filter(rows, IsConsidered), a.denominator);
    if a.denominator != 0 {
      RatioBounds(Count(a.pairs, IsCited), a.denominator);
    }
  }

  /** A review without considered rows carries no evidence key at all, whatever else it stores. */
  lemma NoCriteriaNoEvidence(record: ReviewRecord)
    requires CompleteReview(record).Some? && record.projection.value.evidenceFit.value.considered == 0
    ensures CurrentSupport(record) == Some(CitedSupport(0, None, None, None, None))
  {
    var review := record.projection.value;
    StoredFit(review);
    if review.advice.Some? {
      AdviceParts(review);
      WeightedMeanBound(review);
    }
    if review.verification.Some? && review.verification.value.version == PartialRelevanceV2 {
      PartialIdsAreUncertainRows(review);
    }
  }
}
