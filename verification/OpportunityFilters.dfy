/** Which opportunity records a filter state lets through, and which filter values the drawer offers. */
module OpportunityFilters {
  import opened Sequences
  import opened JsText
  import opened FilterState
  import A = AssessmentProjection
  import F = FitReview
  import T = FitReviewTheorems

  datatype Listing = Listing(
    status: string, employmentType: string, workMode: string, seniority: string, freshness: string,
    requiredSkills: string, preferredSkills: string,
    salaryMin: Option<real>, salaryMax: Option<real>, hourlyMin: Option<real>, hourlyMax: Option<real>,
    postedAt: Option<real>, firstSeenAt: Option<real>, expiresAt: Option<real>,
    relocationSupported: bool, visaOrEorPossible: bool, founderSignal: bool, greenfieldSignal: bool,
    humanRating: Option<real>, latestScore: Option<real>,
    review: F.ReviewRecord, sourceEligibility: Option<A.Assessment>, assessment: Option<A.Assessment>)

  /** The clock and the letter-case mapping matching depends on. */
  datatype Context = Context(now: real, lower: string -> string)

  const MILLISECONDS_PER_DAY := 86400000.0

  function ListingSkills(l: Listing, lower: string -> string): seq<string> {
    ParseSkills(l.requiredSkills, lower) + ParseSkills(l.preferredSkills, lower)
  }

  function SkillKeys(skills: seq<string>, lower: string -> string): set<string> {
    set s | s in skills :: lower(s)
  }

  // ----------------------------------------------------------------- matching

  predicate RangeOverlaps(recordMin: Option<real>, recordMax: Option<real>, min: Option<real>, max: Option<real>) {
    var lo := if recordMin.Some? then recordMin else recordMax;
    var hi := if recordMax.Some? then recordMax else recordMin;
    && lo.Some? && hi.Some?
    && (min.Some? ==> hi.value >= min.value)
    && (max.Some? ==> lo.value <= max.value)
  }

  predicate MatchesPay(
    recordMin: Option<real>, recordMax: Option<real>, min: Option<real>, max: Option<real>, includeMissing: bool)
  {
    if min.None? && max.None? then true
    else if recordMin.None? && recordMax.None? then includeMissing
    else RangeOverlaps(recordMin, recordMax, min, max)
  }

  predicate MatchesFit(review: F.ReviewRecord, fit: string) {
    var complete := F.CompleteReview(review);
    && (fit == "have" ==> complete.Some? && complete.value.evidenceFit.value.status == F.SupportsAll)
    && (fit == "gaps" ==>
          complete.Some? && complete.value.evidenceFit.value.status in {F.SupportedWithUncertainties, F.NeedsEvidence})
  }

  predicate MatchesScore(l: Listing, min: Option<real>, max: Option<real>) {
    if min.None? && max.None? then true
    else if F.CompleteReview(l.review).Some? || F.CompleteUnavailable(l.review) then false
    else
      && l.latestScore.Some?
      && (min.Some? ==> l.latestScore.value >= min.value)
      && (max.Some? ==> l.latestScore.value <= max.value)
  }

  predicate MatchesDates(l: Listing, f: Filters<real>, now: real) {
    var posted := if l.postedAt.Some? then l.postedAt else l.firstSeenAt;
    && (f.postedWithinDays.Some? ==>
          posted.Some? && posted.value >= now - f.postedWithinDays.value * MILLISECONDS_PER_DAY)
    && (f.excludeExpired && l.expiresAt.Some? ==> l.expiresAt.value >= now)
  }

  predicate MatchesWords(l: Listing, f: Filters<real>, lower: string -> string) {
    && (f.status != "all" ==> l.status == f.status)
    && (f.excludeStale ==> lower(Trim(l.freshness)) != "stale")
    && (f.freshness != "all" ==> l.freshness == f.freshness)
    && (f.employmentTypes != [] ==> l.employmentType in f.employmentTypes)
    && (f.workModes != [] ==> l.workMode in f.workModes)
    && (f.seniority != "all" ==> l.seniority == f.seniority)
    && (f.freshOnly ==> lower(Trim(l.freshness)) == "fresh")
  }

  predicate MatchesSignals(l: Listing, f: Filters<real>) {
    && (f.relocationOnly ==> l.relocationSupported)
    && (f.visaOnly ==> l.visaOrEorPossible)
    && (f.founderOnly ==> l.founderSignal)
    && (f.greenfieldOnly ==> l.greenfieldSignal)
  }

  predicate MatchesSkills(l: Listing, wanted: seq<string>, lower: string -> string) {
    wanted != [] ==> SkillKeys(wanted, lower) * SkillKeys(ListingSkills(l, lower), lower) != {}
  }

  function BucketOf(name: string): Option<A.Bucket> {
    if name == "eligible" then Some(A.Eligible)
    else if name == "sponsorship_possible" then Some(A.SponsorshipPossible)
    else if name == "location_restriction" then Some(A.LocationRestriction)
    else if name == "unknown" then Some(A.UnknownBucket)
    else if name == "conflicting" then Some(A.Conflicting)
    else None
  }

  predicate MatchesBuckets(l: Listing, names: seq<string>) {
    names != [] ==>
      var bucket := A.EligibilityView(l.sourceEligibility, l.assessment).bucket;
      exists name :: name in names && BucketOf(name) == Some(bucket)
  }

  predicate MatchesRating(l: Listing, minRating: Option<real>) {
    minRating.Some? ==> l.humanRating.Some? && l.humanRating.value >= minRating.value
  }

  predicate Matches(l: Listing, f: Filters<real>, c: Context) {
    && MatchesWords(l, f, c.lower)
    && MatchesFit(l.review, f.fit)
    && MatchesSkills(l, f.skills, c.lower)
    && MatchesPay(l.salaryMin, l.salaryMax, f.salaryMin, f.salaryMax, f.includeMissingComp)
    && MatchesPay(l.hourlyMin, l.hourlyMax, f.hourlyMin, f.hourlyMax, f.includeMissingComp)
    && MatchesDates(l, f, c.now)
    && MatchesBuckets(l, f.eligibilityBuckets)
    && MatchesSignals(l, f)
    && MatchesRating(l, f.minRating)
    && MatchesScore(l, f.minScore, f.maxScore)
  }

  // ------------------------------------------------------- what matching means

  /** The `have` filter shows a record only if its review leaves nothing in the posting open. */
  lemma HaveLeavesNothingOpen(l: Listing, f: Filters<real>, c: Context)
    requires f.fit == "have" && Matches(l, f, c)
    ensures l.review.projection.Some? && T.AcceptedComplete(l.review.projection.value)
    ensures var review := l.review.projection.value;
            && (forall clause :: clause in review.coverage.clauses ==> !F.IsPossible(clause))
            && F.MaterialFields(review) == []
            && (forall row :: row in review.requirements ==>
                  F.IsContext(row) || (F.IsCriterion(row) && F.IsStrength(row) && F.CitesBothSides(row)))
            && exists row :: row in review.requirements && F.IsSupported(row)
  {
    hide F.Accepted;
    hide F.CompleteAccepted;
    T.SupportsAllMeansNothingOpen(l.review.projection.value);
  }

  /** `have` and `gaps` exclude each other; a record in neither has no complete review, or one without criteria. */
  lemma FitPartition(review: F.ReviewRecord)
    ensures !(MatchesFit(review, "have") && MatchesFit(review, "gaps"))
    ensures !MatchesFit(review, "have") && !MatchesFit(review, "gaps") <==>
            F.CompleteReview(review).None? || F.CompleteReview(review).value.evidenceFit.value.considered == 0
  {
    hide F.Accepted;
    var complete := F.CompleteReview(review);
    if complete.Some? {
      T.StoredFit(complete.value);
    }
  }

  ghost predicate CommonValue(
    recordMin: Option<real>, recordMax: Option<real>, min: Option<real>, max: Option<real>, x: real)
  {
    && (recordMin.Some? || recordMax.Some?)
    && (if recordMin.Some? then recordMin.value else recordMax.value) <= x
    && x <= (if recordMax.Some? then recordMax.value else recordMin.value)
    && (min.Some? ==> min.value <= x) && (max.Some? ==> x <= max.value)
  }

  predicate Ordered(min: Option<real>, max: Option<real>) {
    min.Some? && max.Some? ==> min.value <= max.value
  }

  /** Two ranges overlap by the code's test exactly when they share a value, provided neither is reversed. */
  lemma RangeOverlapsIff(recordMin: Option<real>, recordMax: Option<real>, min: Option<real>, max: Option<real>)
    ensures (exists x :: CommonValue(recordMin, recordMax, min, max, x)) <==>
            RangeOverlaps(recordMin, recordMax, min, max) && Ordered(recordMin, recordMax) && Ordered(min, max)
  {
    if RangeOverlaps(recordMin, recordMax, min, max) && Ordered(recordMin, recordMax) && Ordered(min, max) {
      var lo := if recordMin.Some? then recordMin.value else recordMax.value;
      var x := if min.Some? && min.value > lo then min.value else lo;
      assert CommonValue(recordMin, recordMax, min, max, x);
    }
  }

  // ------------------------------------------------------------ looser filters

  predicate LooserMin(f: Option<real>, g: Option<real>) {
    g.Some? ==> f.Some? && g.value <= f.value
  }

  predicate LooserMax(f: Option<real>, g: Option<real>) {
    g.Some? ==> f.Some? && f.value <= g.value
  }

  predicate LooserWord(f: string, g: string) {
    g == "all" || g == f
  }

  predicate LooserList(f: seq<string>, g: seq<string>) {
    g == [] || (f != [] && forall x :: x in f ==> x in g)
  }

  /** Every setting of `g` asks the same as, or less than, that of `f`. */
  predicate Looser(f: Filters<real>, g: Filters<real>) {
    && LooserWord(f.status, g.status) && LooserWord(f.fit, g.fit)
    && LooserWord(f.freshness, g.freshness) && LooserWord(f.seniority, g.seniority)
    && LooserList(f.skills, g.skills) && LooserList(f.employmentTypes, g.employmentTypes)
    && LooserList(f.workModes, g.workModes) && LooserList(f.eligibilityBuckets, g.eligibilityBuckets)
    && LooserMin(f.salaryMin, g.salaryMin) && LooserMax(f.salaryMax, g.salaryMax)
    && LooserMin(f.hourlyMin, g.hourlyMin) && LooserMax(f.hourlyMax, g.hourlyMax)
    && LooserMax(f.postedWithinDays, g.postedWithinDays) && LooserMin(f.minRating, g.minRating)
    && LooserMin(f.minScore, g.minScore) && LooserMax(f.maxScore, g.maxScore)
    && (f.includeMissingComp ==> g.includeMissingComp)
    && (g.excludeExpired ==> f.excludeExpired) && (g.excludeStale ==> f.excludeStale)
    && (g.relocationOnly ==> f.relocationOnly) && (g.visaOnly ==> f.visaOnly)
    && (g.founderOnly ==> f.founderOnly) && (g.greenfieldOnly ==> f.greenfieldOnly)
    && (g.freshOnly ==> f.freshOnly)
  }

  lemma LooserPay(
    recordMin: Option<real>, recordMax: Option<real>, fMin: Option<real>, fMax: Option<real>, fMissing: bool,
    gMin: Option<real>, gMax: Option<real>, gMissing: bool)
    requires LooserMin(fMin, gMin) && LooserMax(fMax, gMax) && (fMissing ==> gMissing)
    requires MatchesPay(recordMin, recordMax, fMin, fMax, fMissing)
    ensures MatchesPay(recordMin, recordMax, gMin, gMax, gMissing)
  {
  }

  lemma LooserDates(l: Listing, f: Filters<real>, g: Filters<real>, now: real)
    requires LooserMax(f.postedWithinDays, g.postedWithinDays) && (g.excludeExpired ==> f.excludeExpired)
    requires MatchesDates(l, f, now)
    ensures MatchesDates(l, g, now)
  {
    if g.postedWithinDays.Some? {
      assert f.postedWithinDays.value * MILLISECONDS_PER_DAY <= g.postedWithinDays.value * MILLISECONDS_PER_DAY;
    }
  }

  lemma LooserWords(l: Listing, f: Filters<real>, g: Filters<real>, lower: string -> string)
    requires Looser(f, g) && MatchesWords(l, f, lower)
    ensures MatchesWords(l, g, lower)
  {
    hide Trim;
  }

  lemma LooserScore(l: Listing, f: Filters<real>, g: Filters<real>)
    requires LooserMin(f.minScore, g.minScore) && LooserMax(f.maxScore, g.maxScore)
    requires MatchesScore(l, f.minScore, f.maxScore)
    ensures MatchesScore(l, g.minScore, g.maxScore)
  {
    hide F.CompleteReview;
    hide F.CompleteUnavailable;
  }

  lemma LooserFit(review: F.ReviewRecord, f: string, g: string)
    requires LooserWord(f, g) && MatchesFit(review, f)
    ensures MatchesFit(review, g)
  {
  }

  lemma LooserBuckets(l: Listing, f: seq<string>, g: seq<string>)
    requires LooserList(f, g) && MatchesBuckets(l, f)
    ensures MatchesBuckets(l, g)
  {
    hide A.EligibilityView;
  }

  /** Relaxing a filter never loses a record. */
  lemma LooserKeeps(l: Listing, f: Filters<real>, g: Filters<real>, c: Context)
    requires Looser(f, g) && Matches(l, f, c)
    ensures Matches(l, g, c)
  {
    hide MatchesWords;
    hide MatchesFit;
    hide MatchesPay;
    hide MatchesDates;
    hide MatchesBuckets;
    hide MatchesScore;
    hide ListingSkills;
    hide LooserList;
    LooserWords(l, f, g, c.lower);
    LooserFit(l.review, f.fit, g.fit);
    LooserSkills(f.skills, g.skills, ListingSkills(l, c.lower), c.lower);
    LooserPay(l.salaryMin, l.salaryMax, f.salaryMin, f.salaryMax, f.includeMissingComp,
              g.salaryMin, g.salaryMax, g.includeMissingComp);
    LooserPay(l.hourlyMin, l.hourlyMax, f.hourlyMin, f.hourlyMax, f.includeMissingComp,
              g.hourlyMin, g.hourlyMax, g.includeMissingComp);
    LooserDates(l, f, g, c.now);
    LooserBuckets(l, f.eligibilityBuckets, g.eligibilityBuckets);
    LooserScore(l, f, g);
  }

  lemma LooserSkills(f: seq<string>, g: seq<string>, owned: seq<string>, lower: string -> string)
    requires LooserList(f, g)
    requires f != [] ==> SkillKeys(f, lower) * SkillKeys(owned, lower) != {}
    ensures g != [] ==> SkillKeys(g, lower) * SkillKeys(owned, lower) != {}
  {
    if g != [] {
      var key :| key in SkillKeys(f, lower) * SkillKeys(owned, lower);
      assert key in SkillKeys(g, lower) * SkillKeys(owned, lower);
    }
  }

  // ------------------------------------------------------------ active filters

  datatype Dimension =
    | StatusDimension | FitDimension | SkillsDimension | SalaryDimension | HourlyDimension | MissingPayDimension
    | PostedDimension | ExpiredDimension | StaleDimension | FreshnessDimension | EmploymentTypesDimension
    | WorkModesDimension | BucketsDimension | SeniorityDimension | RelocationDimension | VisaDimension
    | FounderDimension | GreenfieldDimension | FreshDimension | RatingDimension | ScoreDimension

  predicate HasRange(min: Option<real>, max: Option<real>) {
    min.Some? || max.Some?
  }

  predicate IsActive(f: Filters<real>, d: Dimension) {
    match d
    case StatusDimension => f.status != "all"
    case FitDimension => f.fit != "all"
    case SkillsDimension => f.skills != []
    case SalaryDimension => HasRange(f.salaryMin, f.salaryMax)
    case HourlyDimension => HasRange(f.hourlyMin, f.hourlyMax)
    case MissingPayDimension =>
      !f.includeMissingComp && (HasRange(f.salaryMin, f.salaryMax) || HasRange(f.hourlyMin, f.hourlyMax))
    case PostedDimension => f.postedWithinDays.Some?
    case ExpiredDimension => f.excludeExpired
    case StaleDimension => f.excludeStale
    case FreshnessDimension => f.freshness != "all"
    case EmploymentTypesDimension => f.employmentTypes != []
    case WorkModesDimension => f.workModes != []
    case BucketsDimension => f.eligibilityBuckets != []
    case SeniorityDimension => f.seniority != "all"
    case RelocationDimension => f.relocationOnly
    case VisaDimension => f.visaOnly
    case FounderDimension => f.founderOnly
    case GreenfieldDimension => f.greenfieldOnly
    case FreshDimension => f.freshOnly
    case RatingDimension => f.minRating.Some?
    case ScoreDimension => HasRange(f.minScore, f.maxScore)
  }

  function ActiveDimensions(f: Filters<real>): set<Dimension> {
    set d: Dimension | IsActive(f, d)
  }

  lemma InactiveDimension(f: Filters<real>, d: Dimension)
    requires ActiveDimensions(f) == {}
    ensures !IsActive(f, d)
  {
    assert d !in ActiveDimensions(f);
  }

  lemma InactiveWords(l: Listing, f: Filters<real>, c: Context)
    requires ActiveDimensions(f) == {}
    ensures MatchesWords(l, f, c.lower) && MatchesFit(l.review, f.fit)
  {
    hide Trim;
    hide F.CompleteReview;
    hide ActiveDimensions;
    InactiveDimension(f, StatusDimension);
    InactiveDimension(f, FitDimension);
    InactiveDimension(f, StaleDimension);
    InactiveDimension(f, FreshnessDimension);
    InactiveDimension(f, EmploymentTypesDimension);
    InactiveDimension(f, WorkModesDimension);
    InactiveDimension(f, SeniorityDimension);
    InactiveDimension(f, FreshDimension);
  }

  lemma InactiveNumbers(l: Listing, f: Filters<real>, c: Context)
    requires ActiveDimensions(f) == {}
    ensures MatchesPay(l.salaryMin, l.salaryMax, f.salaryMin, f.salaryMax, f.includeMissingComp)
    ensures MatchesPay(l.hourlyMin, l.hourlyMax, f.hourlyMin, f.hourlyMax, f.includeMissingComp)
    ensures MatchesDates(l, f, c.now) && MatchesRating(l, f.minRating) && MatchesScore(l, f.minScore, f.maxScore)
  {
    hide F.CompleteReview;
    hide F.CompleteUnavailable;
    hide ActiveDimensions;
    InactiveDimension(f, SalaryDimension);
    InactiveDimension(f, HourlyDimension);
    InactiveDimension(f, PostedDimension);
    InactiveDimension(f, ExpiredDimension);
    InactiveDimension(f, RatingDimension);
    InactiveDimension(f, ScoreDimension);
  }

  lemma InactiveChoices(l: Listing, f: Filters<real>, c: Context)
    requires ActiveDimensions(f) == {}
    ensures MatchesSkills(l, f.skills, c.lower) && MatchesBuckets(l, f.eligibilityBuckets) && MatchesSignals(l, f)
  {
    hide ListingSkills;
    hide A.EligibilityView;
    hide ActiveDimensions;
    InactiveDimension(f, SkillsDimension);
    InactiveDimension(f, BucketsDimension);
    InactiveDimension(f, RelocationDimension);
    InactiveDimension(f, VisaDimension);
    InactiveDimension(f, FounderDimension);
    InactiveDimension(f, GreenfieldDimension);
  }

  /** Without an active dimension, every record is let through. */
  lemma InactiveMatchesAll(l: Listing, f: Filters<real>, c: Context)
    requires ActiveDimensions(f) == {}
    ensures Matches(l, f, c)
  {
    hide ActiveDimensions;
    InactiveWords(l, f, c);
    InactiveNumbers(l, f, c);
    InactiveChoices(l, f, c);
  }

  // ----------------------------------------------------------- offered options

  datatype WordField = StatusField | EmploymentTypeField | WorkModeField | SeniorityField | FreshnessField

  function Raw(l: Listing, field: WordField): string {
    match field
    case StatusField => l.status
    case EmploymentTypeField => l.employmentType
    case WorkModeField => l.workMode
    case SeniorityField => l.seniority
    case FreshnessField => l.freshness
  }

  /** Blank values are never offered, and only a status may be called unknown. */
  predicate Offerable(field: WordField, value: string) {
    value != "" && (field == StatusField || value != "unknown")
  }

  function OfferedWords(listings: seq<Listing>, field: WordField): set<string> {
    set l | l in listings && Offerable(field, Trim(Raw(l, field))) :: Trim(Raw(l, field))
  }

  function AllSkills(listings: seq<Listing>, lower: string -> string): seq<string> {
    if listings == [] then []
    else
      var n := |listings| - 1;
      AllSkills(listings[..n], lower) + ListingSkills(listings[n], lower)
  }

  /** The option lists before they are put in alphabetical order. */
  datatype Options = Options(
    statuses: set<string>, employmentTypes: set<string>, workModes: set<string>, seniorities: set<string>,
    freshness: set<string>, skills: map<string, string>)

  predicate IsFirst(all: seq<string>, i: nat, lower: string -> string)
    requires i < |all|
  {
    forall k :: 0 <= k < i ==> lower(all[k]) != lower(all[i])
  }

  /** Each key is mapped to the spelling it was first seen in. */
  ghost predicate FirstSpellings(skills: map<string, string>, all: seq<string>, lower: string -> string) {
    && skills.Keys == SkillKeys(all, lower)
    && forall i :: 0 <= i < |all| && IsFirst(all, i, lower) ==>
         lower(all[i]) in skills && skills[lower(all[i])] == all[i]
  }

  lemma FirstIn(all: seq<string>, x: string, i: nat, lower: string -> string)
    requires i <= |all|
    ensures i < |all| ==> (IsFirst(all + [x], i, lower) <==> IsFirst(all, i, lower))
    ensures i == |all| ==> (IsFirst(all + [x], i, lower) <==> lower(x) !in SkillKeys(all, lower))
  {
    var longer := all + [x];
    assert forall k :: 0 <= k < |all| ==> longer[k] == all[k];
    if i == |all| {
      if lower(x) in SkillKeys(all, lower) {
        var s :| s in all && lower(s) == lower(x);
        var k :| 0 <= k < |all| && all[k] == s;
        assert longer[k] == s;
      } else {
        assert forall k :: 0 <= k < |all| ==> all[k] in all;
      }
    }
  }

  lemma KeysStep(all: seq<string>, x: string, lower: string -> string)
    ensures SkillKeys(all + [x], lower) == SkillKeys(all, lower) + {lower(x)}
  {
  }

  lemma SpellingsStep(skills: map<string, string>, all: seq<string>, x: string, lower: string -> string)
    requires FirstSpellings(skills, all, lower)
    ensures FirstSpellings(if lower(x) in skills then skills else skills[lower(x) := x], all + [x], lower)
  {
    hide IsFirst;
    hide SkillKeys;
    var longer := all + [x];
    var next := if lower(x) in skills then skills else skills[lower(x) := x];
    KeysStep(all, x, lower);
    forall i | 0 <= i < |longer| && IsFirst(longer, i, lower)
      ensures lower(longer[i]) in next && next[lower(longer[i])] == longer[i]
    {
      FirstIn(all, x, i, lower);
    }
  }

  lemma WordsStep(listings: seq<Listing>, i: nat, field: WordField)
    requires i < |listings|
    ensures OfferedWords(listings[..i + 1], field) ==
            OfferedWords(listings[..i], field) +
            if Offerable(field, Trim(Raw(listings[i], field))) then {Trim(Raw(listings[i], field))} else {}
  {
    hide Raw;
    hide Trim;
    hide Offerable;
    assert listings[..i + 1] == listings[..i] + [listings[i]];
  }

  method CollectWords(listings: seq<Listing>, field: WordField) returns (words: set<string>)
    ensures words == OfferedWords(listings, field)
  {
    hide OfferedWords;
    NoWords(field);
    words := {};
    for i := 0 to |listings|
      invariant words == OfferedWords(listings[..i], field)
    {
      WordsStep(listings, i, field);
      var value := Trim(Raw(listings[i], field));
      if Offerable(field, value) {
        words := words + {value};
      }
    }
    assert listings[..|listings|] == listings;
  }

  lemma NoWords(field: WordField)
    ensures OfferedWords([], field) == {}
  {
  }

  method CollectSkills(listings: seq<Listing>, lower: string -> string) returns (skills: map<string, string>)
    ensures FirstSpellings(skills, AllSkills(listings, lower), lower)
  {
    hide FirstSpellings;
    hide ListingSkills;
    NoSpellings(lower);
    skills := map[];
    for i := 0 to |listings|
      invariant FirstSpellings(skills, AllSkills(listings[..i], lower), lower)
    {
      var more := ListingSkills(listings[i], lower);
      ghost var before := AllSkills(listings[..i], lower);
      assert before + more[..0] == before;
      for k := 0 to |more|
        invariant FirstSpellings(skills, before + more[..k], lower)
      {
        assert before + more[..k + 1] == before + more[..k] + [more[k]];
        SpellingsStep(skills, before + more[..k], more[k], lower);
        if lower(more[k]) !in skills {
          skills := skills[lower(more[k]) := more[k]];
        }
      }
      assert more[..|more|] == more;
      assert listings[..i + 1][..i] == listings[..i];
    }
    assert listings[..|listings|] == listings;
  }

  lemma NoSpellings(lower: string -> string)
    ensures FirstSpellings(map[], [], lower)
  {
  }

  method CollectOptions(listings: seq<Listing>, lower: string -> string) returns (options: Options)
    ensures options.statuses == OfferedWords(listings, StatusField)
    ensures options.employmentTypes == OfferedWords(listings, EmploymentTypeField)
    ensures options.workModes == OfferedWords(listings, WorkModeField)
    ensures options.seniorities == OfferedWords(listings, SeniorityField)
    ensures options.freshness == OfferedWords(listings, FreshnessField)
    ensures FirstSpellings(options.skills, AllSkills(listings, lower), lower)
  {
    hide OfferedWords;
    hide FirstSpellings;
    var statuses := CollectWords(listings, StatusField);
    var employmentTypes := CollectWords(listings, EmploymentTypeField);
    var workModes := CollectWords(listings, WorkModeField);
    var seniorities := CollectWords(listings, SeniorityField);
    var freshness := CollectWords(listings, FreshnessField);
    var skills := CollectSkills(listings, lower);
    options := Options(statuses, employmentTypes, workModes, seniorities, freshness, skills);
  }

  // ------------------------------------------- can an offered option match nothing?

  const NO_FILTERS: Filters<real> := Filters(
    "all", "all", [], None, None, None, None, true, None, false, false, "all", [], [], [],
    "all", false, false, false, false, false, None, None, None, "best", "desc")

  function SelectWord(field: WordField, value: string): Filters<real> {
    match field
    case StatusField => NO_FILTERS.(status := value)
    case EmploymentTypeField => NO_FILTERS.(employmentTypes := [value])
    case WorkModeField => NO_FILTERS.(workModes := [value])
    case SeniorityField => NO_FILTERS.(seniority := value)
    case FreshnessField => NO_FILTERS.(freshness := value)
  }

  /** Choosing this value in the drawer leaves at least one of the records. */
  ghost predicate Live(listings: seq<Listing>, f: Filters<real>, c: Context) {
    exists l :: l in listings && Matches(l, f, c)
  }

  predicate IsWildcard(field: WordField, value: string) {
    value == "all" && field != EmploymentTypeField && field != WorkModeField
  }

  lemma SelectedWordMatches(l: Listing, field: WordField, value: string, c: Context)
    ensures Matches(l, SelectWord(field, value), c) <==> Raw(l, field) == value || IsWildcard(field, value)
  {
    hide F.CompleteReview;
    hide F.CompleteUnavailable;
    hide ListingSkills;
  }

  /**
   An offered word matches some record exactly when one holds it without surrounding white space (or it is the
   wildcard): options are trimmed, but matching compares the stored value.
   */
  lemma OfferedWordLiveIff(listings: seq<Listing>, field: WordField, value: string, c: Context)
    requires value in OfferedWords(listings, field)
    ensures Live(listings, SelectWord(field, value), c) <==>
            IsWildcard(field, value) || exists l :: l in listings && Raw(l, field) == value
  {
    hide Matches;
    hide SelectWord;
    var l :| l in listings && value == Trim(Raw(l, field));
    forall x ensures Matches(x, SelectWord(field, value), c) <==> Raw(x, field) == value || IsWildcard(field, value) {
      SelectedWordMatches(x, field, value, c);
    }
  }

  /** One record whose status is stored with a space in front is enough for an option that matches nothing. */
  lemma PaddedStatusOffersNothing(l: Listing, word: string, c: Context)
    requires word != "" && !IsSpace(word[0]) && !IsSpace(word[|word| - 1]) && word != "all"
    requires l.status == " " + word
    ensures word in OfferedWords([l], StatusField)
    ensures !Live([l], SelectWord(StatusField, word), c)
  {
    hide Matches;
    hide SelectWord;
    hide Trim;
    PaddedTrim(word);
    assert l in [l] && Trim(Raw(l, StatusField)) == word;
    OfferedWordLiveIff([l], StatusField, word, c);
  }

  lemma PaddedTrim(word: string)
    requires word != "" && !IsSpace(word[0]) && !IsSpace(word[|word| - 1])
    ensures Trim(" " + word) == word
  {
    assert (" " + word)[1..] == word;
    TrimWord(word);
    assert TrimStart(word) == word;
  }

  /** A skill option always leaves a record: both sides are compared by their key. */
  lemma OfferedSkillLive(listings: seq<Listing>, skills: map<string, string>, key: string, c: Context)
    requires FirstSpellings(skills, AllSkills(listings, c.lower), c.lower) && key in skills
    ensures c.lower(skills[key]) == key
    ensures Live(listings, NO_FILTERS.(skills := [skills[key]]), c)
  {
    hide ListingSkills;
    var all := AllSkills(listings, c.lower);
    var i := FirstOfKey(all, key, c.lower);
    assert skills[key] == all[i];
    var l := SkillOwner(listings, all[i], c.lower);
    SelectedSkillMatches(l, all[i], c);
  }

  lemma {:induction false} FirstOfKey(all: seq<string>, key: string, lower: string -> string) returns (i: nat)
    requires key in SkillKeys(all, lower)
    ensures i < |all| && lower(all[i]) == key && forall k :: 0 <= k < i ==> lower(all[k]) != key
  {
    if lower(all[0]) == key {
      i := 0;
    } else {
      var s :| s in all && lower(s) == key;
      assert s in all[1..];
      var k := FirstOfKey(all[1..], key, lower);
      i := k + 1;
    }
  }

  lemma {:induction false} SkillOwner(listings: seq<Listing>, s: string, lower: string -> string) returns (l: Listing)
    requires s in AllSkills(listings, lower)
    ensures l in listings && s in ListingSkills(l, lower)
  {
    hide ListingSkills;
    var n := |listings| - 1;
    if s in ListingSkills(listings[n], lower) {
      l := listings[n];
    } else {
      l := SkillOwner(listings[..n], s, lower);
    }
  }

  lemma SelectedSkillMatches(l: Listing, s: string, c: Context)
    requires s in ListingSkills(l, c.lower)
    ensures Matches(l, NO_FILTERS.(skills := [s]), c)
  {
    hide F.CompleteReview;
    hide F.CompleteUnavailable;
    hide ListingSkills;
    assert c.lower(s) in SkillKeys([s], c.lower) * SkillKeys(ListingSkills(l, c.lower), c.lower);
  }
}
