/** Eligibility bucket, readiness and fit of a stored assessment, with its source-only fallback. */
module AssessmentProjection {
  import opened Sequences

  datatype Bucket = Eligible | SponsorshipPossible | LocationRestriction | UnknownBucket | Conflicting
  datatype Readiness = Assessable | NeedsExtraction | NeedsEvidence | UnknownReadiness

  datatype Coverage = Coverage(
    candidateTruncated: bool, postingTruncated: bool, requirementsTruncated: bool, requirementCount: int)
  datatype Ranking = Ranking(fitScore: real, eligibilityPriority: real)

  /** A stored assessment; a field that is missing or of the wrong type is None. */
  datatype Assessment = Assessment(
    sourceCurrent: bool, bucket: Option<Bucket>, ranking: Option<Ranking>,
    readiness: Option<Readiness>, coverage: Option<Coverage>)

  datatype View = View(
    bucket: Bucket, sourceCurrent: bool, readiness: Readiness, coverage: Option<Coverage>,
    eligibilityPriority: real, fitScore: real)

  function Priority(bucket: Bucket): real {
    match bucket
    case Eligible => 0.0
    case SponsorshipPossible => 1.0
    case UnknownBucket => 2.0
    case Conflicting => 3.0
    case LocationRestriction => 4.0
  }

  const UNKNOWN_VIEW := View(UnknownBucket, false, UnknownReadiness, None, Priority(UnknownBucket), 0.0)

  function SafeCoverage(coverage: Option<Coverage>): Option<Coverage> {
    if coverage.Some? && coverage.value.requirementCount >= 0 then coverage else None
  }

  predicate Truncated(c: Coverage) {
    c.candidateTruncated || c.postingTruncated || c.requirementsTruncated
  }

  function ConsistentReadiness(value: Option<Readiness>, coverage: Option<Coverage>): Readiness {
    if coverage.None? then UnknownReadiness
    else if value == Some(NeedsExtraction) || value == Some(NeedsEvidence) then value.value
    else if coverage.value.requirementCount == 0 || Truncated(coverage.value) then UnknownReadiness
    else if value == Some(Assessable) then Assessable
    else UnknownReadiness
  }

  function AssessmentView(assessment: Option<Assessment>): View {
    if assessment.None? then UNKNOWN_VIEW
    else
      var a := assessment.value;
      if !a.sourceCurrent || a.bucket.None? || a.ranking.None? then UNKNOWN_VIEW
      else
        var coverage := SafeCoverage(a.coverage);
        View(
          a.bucket.value, true,
          if coverage.Some? && a.readiness in {Some(Assessable), Some(NeedsExtraction), Some(NeedsEvidence)}
          then ConsistentReadiness(a.readiness, coverage)
          else UnknownReadiness,
          coverage, a.ranking.value.eligibilityPriority, a.ranking.value.fitScore)
  }

  /** Eligibility can be known before there is an assessment; it then carries no fit score. */
  function EligibilityView(assessment: Option<Assessment>, fallback: Option<Assessment>): View {
    if fallback.Some? && (assessment.None? || !assessment.value.sourceCurrent) then AssessmentView(fallback)
    else
      var full := AssessmentView(assessment);
      if full.sourceCurrent || assessment.None? then full
      else if !assessment.value.sourceCurrent || assessment.value.bucket.None? then full
      else
        var bucket := assessment.value.bucket.value;
        View(bucket, true, UnknownReadiness, None, Priority(bucket), 0.0)
  }

  /** The stored assessment that a view presents: the fallback only stands in for one that is not current. */
  function Presented(assessment: Option<Assessment>, fallback: Option<Assessment>): Option<Assessment> {
    if fallback.Some? && (assessment.None? || !assessment.value.sourceCurrent) then fallback else assessment
  }

  ghost predicate FullyAssessed(a: Assessment) {
    && a.sourceCurrent && a.bucket.Some? && a.ranking.Some?
    && a.readiness == Some(Assessable)
    && a.coverage.Some? && a.coverage.value.requirementCount > 0 && !Truncated(a.coverage.value)
  }

  /**
   A view is assessable exactly when the presented assessment is current, ranked and claims to be, over
   untruncated coverage of at least one requirement; only such a view, or one with a ranking, has a fit score.
   */
  lemma AssessableIffBacked(assessment: Option<Assessment>, fallback: Option<Assessment>)
    ensures var v, p := EligibilityView(assessment, fallback), Presented(assessment, fallback);
            && (v.readiness == Assessable <==> p.Some? && FullyAssessed(p.value))
            && (v.sourceCurrent ==> p.Some? && p.value.sourceCurrent && p.value.bucket == Some(v.bucket))
            && (v.fitScore != 0.0 ==> p.Some? && p.value.ranking.Some?
                                      && p.value.ranking.value.fitScore == v.fitScore)
            && (!v.sourceCurrent ==> v == UNKNOWN_VIEW)
  {
  }

  /**
   What a view shows of the assessment it presents: its bucket with its own ranking; without a ranking the bucket
   with the standard priority, unless it only stands in; otherwise nothing is known.
   */
  lemma ViewMeans(assessment: Option<Assessment>, fallback: Option<Assessment>)
    ensures var v, p := EligibilityView(assessment, fallback), Presented(assessment, fallback);
            var stands := fallback.Some? && (assessment.None? || !assessment.value.sourceCurrent);
            var known := p.Some? && p.value.sourceCurrent && p.value.bucket.Some?;
            && (stands ==> p == fallback) && (!stands ==> p == assessment)
            && (known && p.value.ranking.Some? ==>
                  && v.sourceCurrent && v.bucket == p.value.bucket.value
                  && v.eligibilityPriority == p.value.ranking.value.eligibilityPriority
                  && v.fitScore == p.value.ranking.value.fitScore)
            && (known && p.value.ranking.None? && !stands ==>
                  && v.sourceCurrent && v.bucket == p.value.bucket.value && v.fitScore == 0.0
                  && v.readiness == UnknownReadiness
                  && v.eligibilityPriority ==
                     match v.bucket
                     case Eligible => 0.0
                     case SponsorshipPossible => 1.0
                     case UnknownBucket => 2.0
                     case Conflicting => 3.0
                     case LocationRestriction => 4.0)
            && (!known || (p.value.ranking.None? && stands) ==>
                  && !v.sourceCurrent && v.bucket == UnknownBucket && v.readiness == UnknownReadiness
                  && v.eligibilityPriority == 2.0 && v.fitScore == 0.0)
            && (v.readiness in {NeedsExtraction, NeedsEvidence} <==>
                  && known && p.value.ranking.Some? && p.value.readiness in {Some(NeedsExtraction), Some(NeedsEvidence)}
                  && p.value.coverage.Some? && p.value.coverage.value.requirementCount >= 0)
            && (v.readiness in {NeedsExtraction, NeedsEvidence} ==> Some(v.readiness) == p.value.readiness)
            && (v.readiness == Assessable <==>
                  && known && p.value.ranking.Some? && p.value.readiness == Some(Assessable)
                  && p.value.coverage.Some? && p.value.coverage.value.requirementCount > 0
                  && !p.value.coverage.value.candidateTruncated && !p.value.coverage.value.postingTruncated
                  && !p.value.coverage.value.requirementsTruncated)
  {
  }
}
