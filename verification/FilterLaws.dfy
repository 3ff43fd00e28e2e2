/** What reading, normalising and matching filters say about the raw values: one filter setting at a time. */
module FilterLaws {
  import opened Sequences
  import opened JsText
  import opened FilterState
  import opened OpportunityFilters
  import A = AssessmentProjection
  import F = FitReview

  // ---------------------------------------------------------------- normalising

  /** Bucket names of the earlier scheme mean one of the present ones, and no other name means any. */
  lemma LegacyBuckets(name: string)
    ensures NormalBucket(name) == Some("eligible") <==> name in ["eligible", "canada_eligible"]
    ensures NormalBucket(name) == Some("location_restriction") <==>
            name in ["location_restriction", "us_residence_required", "incompatible"]
    ensures NormalBucket(name) == Some("sponsorship_possible") <==> name == "sponsorship_possible"
    ensures NormalBucket(name) == Some("unknown") <==> name == "unknown"
    ensures NormalBucket(name) == Some("conflicting") <==> name == "conflicting"
    ensures NormalBucket(name).None? <==>
            name !in ["eligible", "canada_eligible", "location_restriction", "us_residence_required", "incompatible",
                      "sponsorship_possible", "unknown", "conflicting"]
  {
    BucketFixed("eligible");
    BucketFixed("sponsorship_possible");
    BucketFixed("location_restriction");
    BucketFixed("unknown");
    BucketFixed("conflicting");
    assert "eligible"[0] == 'e' && "sponsorship_possible"[0] == 's' && "location_restriction"[0] == 'l';
    assert "unknown"[0] == 'u' && "conflicting"[0] == 'c' && "conflicting"[1] == 'o' && "canada_eligible"[1] == 'a';
    assert "us_residence_required"[1] == 's' && "unknown"[1] == 'n' && "incompatible"[0] == 'i';
  }

  lemma {:induction false} BucketsInOrder(a: seq<string>, b: seq<string>)
    ensures NormalBuckets(a + b) == NormalBuckets(a) + NormalBuckets(b)
  {
    hide NormalBucket;
    if a == [] {
      assert a + b == b;
    } else {
      assert (a + b)[1..] == a[1..] + b;
      BucketsInOrder(a[1..], b);
    }
  }

  /** What an empty blob is normalised to. */
  lemma NothingIsDefault<N>()
    ensures Normalize<N>(RawFilters(
                           None, None, None, None, None, None, None, None, None, None, None, None, None, None, None,
                           None, None, None, None, None, None, None, None, None, None, None, None, None)) ==
            Filters("all", "all", [], None, None, None, None, true, None, false, false, "all", [], [], [], "all",
                    false, false, false, false, false, None, None, None, "best", "desc")
  {
  }

  /** A single value of an earlier scheme stands in for a missing list, and only for that. */
  lemma LegacySingles<N>(raw: RawFilters<N>)
    ensures raw.employmentTypes.None? && raw.employmentType.Some? ==>
              Normalize(raw).employmentTypes ==
              if Chosen(raw.employmentType.value) then [raw.employmentType.value] else []
    ensures raw.workModes.None? && raw.workMode.Some? ==>
              Normalize(raw).workModes == if Chosen(raw.workMode.value) then [raw.workMode.value] else []
    ensures raw.employmentTypes.Some? ==> Normalize(raw).employmentTypes == Filter(raw.employmentTypes.value, Chosen)
    ensures raw.workModes.Some? ==> Normalize(raw).workModes == Filter(raw.workModes.value, Chosen)
  {
    forall s: string ensures Selectable(s) <==> Chosen(s) {
      TrimBlank(s);
    }
    if raw.employmentTypes.Some? {
      FilterCongruent(raw.employmentTypes.value, Selectable, Chosen);
    }
    if raw.workModes.Some? {
      FilterCongruent(raw.workModes.value, Selectable, Chosen);
    }
  }

  predicate Chosen(value: string) {
    Trim(value) != "" && value != "all"
  }

  // -------------------------------------------------------------------- reading

  /** URLSearchParams.get. */
  function Get(entries: seq<Entry>, key: FilterKey): Option<string> {
    if entries == [] then None
    else if entries[0].key == Own(key) then Some(entries[0].value)
    else Get(entries[1..], key)
  }

  /** URLSearchParams.getAll. */
  function GetAll(entries: seq<Entry>, key: FilterKey): seq<string> {
    if entries == [] then []
    else (if entries[0].key == Own(key) then [entries[0].value] else []) + GetAll(entries[1..], key)
  }

  lemma {:induction false} GetIsHead(entries: seq<Entry>, key: FilterKey)
    ensures ValuesOf(entries, Own(key)) == GetAll(entries, key)
    ensures Head(ValuesOf(entries, Own(key))) == Get(entries, key)
  {
    if entries == [] {
    } else {
      GetIsHead(entries[1..], key);
      var one := [entries[0]];
      assert entries == one + entries[1..];
      ValuesAppend(one, entries[1..], Own(key));
      OneValue(entries[0].key, entries[0].value, Own(key));
      assert entries[0] == Entry(entries[0].key, entries[0].value);
    }
  }

  function NumberIn<N>(host: Host<N>, value: Option<string>): Option<N> {
    if value.Some? && Trim(value.value) != "" then host.parse(value.value) else None
  }

  predicate IsOn<N>(host: Host<N>, value: Option<string>) {
    value.Some? && host.lower(Trim(value.value)) in ["1", "true", "yes", "on"]
  }

  function WordIn(value: Option<string>, standard: string): string {
    if value.Some? && |value.value| > 0 then value.value else standard
  }

  function ChoiceIn(value: Option<string>, allowed: seq<string>, standard: string): string {
    if value.Some? && value.value in allowed then value.value else standard
  }

  lemma NumberRead<N>(host: Host<N>, entries: seq<Entry>, key: FilterKey)
    ensures NumberOf(host, LookupOf(entries)(key)) == NumberIn(host, Get(entries, key))
  {
    GetIsHead(entries, key);
    if Get(entries, key).Some? {
      TrimBlank(Get(entries, key).value);
    }
  }

  lemma FlagRead<N>(host: Host<N>, entries: seq<Entry>, key: FilterKey)
    ensures Selected(host, LookupOf(entries)(key)) <==> IsOn(host, Get(entries, key))
  {
    hide Trim;
    GetIsHead(entries, key);
  }

  /** Every numeric setting is the number under its own key. */
  lemma NumbersRead<N>(host: Host<N>, entries: seq<Entry>)
    ensures var f := FiltersFromParams(host, entries);
            && f.salaryMin == NumberIn(host, Get(entries, SalaryMinKey))
            && f.salaryMax == NumberIn(host, Get(entries, SalaryMaxKey))
            && f.hourlyMin == NumberIn(host, Get(entries, HourlyMinKey))
            && f.hourlyMax == NumberIn(host, Get(entries, HourlyMaxKey))
            && f.postedWithinDays == NumberIn(host, Get(entries, PostedWithinDaysKey))
            && f.minRating == NumberIn(host, Get(entries, MinRatingKey))
            && f.minScore == NumberIn(host, Get(entries, MinScoreKey))
            && f.maxScore == NumberIn(host, Get(entries, MaxScoreKey))
  {
    hide NumberOf;
    hide NumberIn;
    hide Get;
    hide ValuesOf;
    hide Selected;
    hide StringOr;
    hide OneOf;
    hide CanonicalSkills;
    forall key ensures NumberOf(host, LookupOf(entries)(key)) == NumberIn(host, Get(entries, key)) {
      NumberRead(host, entries, key);
    }
  }

  /** Every flag is on when the value under its own key says so; missing pay is left out by "false" alone. */
  lemma FlagsRead<N>(host: Host<N>, entries: seq<Entry>)
    ensures var f := FiltersFromParams(host, entries);
            && (f.includeMissingComp <==> Get(entries, IncludeMissingCompKey) != Some("false"))
            && (f.excludeExpired <==> IsOn(host, Get(entries, ExcludeExpiredKey)))
            && (f.excludeStale <==> IsOn(host, Get(entries, ExcludeStaleKey)))
            && (f.relocationOnly <==> IsOn(host, Get(entries, RelocationOnlyKey)))
            && (f.visaOnly <==> IsOn(host, Get(entries, VisaOnlyKey)))
            && (f.founderOnly <==> IsOn(host, Get(entries, FounderOnlyKey)))
            && (f.greenfieldOnly <==> IsOn(host, Get(entries, GreenfieldOnlyKey)))
            && (f.freshOnly <==> IsOn(host, Get(entries, FreshOnlyKey)))
  {
    hide NumberOf;
    hide Get;
    hide ValuesOf;
    hide Selected;
    hide IsOn;
    hide StringOr;
    hide OneOf;
    hide CanonicalSkills;
    forall key ensures Selected(host, LookupOf(entries)(key)) <==> IsOn(host, Get(entries, key)) {
      FlagRead(host, entries, key);
    }
    GetIsHead(entries, IncludeMissingCompKey);
  }

  lemma WordRead(entries: seq<Entry>, key: FilterKey, standard: string)
    ensures StringOr(Head(LookupOf(entries)(key)), standard) == WordIn(Get(entries, key), standard)
  {
    GetIsHead(entries, key);
  }

  lemma ChoiceRead(entries: seq<Entry>, key: FilterKey, allowed: set<string>, listed: seq<string>, standard: string)
    requires forall s :: s in allowed <==> s in listed
    ensures OneOf(Head(LookupOf(entries)(key)), allowed, standard) == ChoiceIn(Get(entries, key), listed, standard)
  {
    GetIsHead(entries, key);
  }

  lemma ListRead(entries: seq<Entry>, key: FilterKey)
    ensures StringArrayOr(Some(LookupOf(entries)(key)), None) == Filter(GetAll(entries, key), Chosen)
  {
    hide Selectable;
    hide Chosen;
    GetIsHead(entries, key);
    forall s: string ensures Selectable(s) <==> Chosen(s) {
      ChosenIff(s);
    }
    FilterCongruent(GetAll(entries, key), Selectable, Chosen);
  }

  /** Every word is the one under its own key, if it may be; else the default. */
  lemma WordsRead<N>(host: Host<N>, entries: seq<Entry>)
    ensures var f := FiltersFromParams(host, entries);
            && f.status == WordIn(Get(entries, StatusKey), "all")
            && f.freshness == WordIn(Get(entries, FreshnessKey), "all")
            && f.seniority == WordIn(Get(entries, SeniorityKey), "all")
            && f.fit == ChoiceIn(Get(entries, FitKey), ["have", "gaps", "all"], "all")
            && f.sort == ChoiceIn(
                           Get(entries, SortKey),
                           ["best", "eligibility", "cited_support", "recommendation", "newest", "score", "salary",
                            "rating"],
                           "best")
            && f.sortDirection == ChoiceIn(Get(entries, SortDirectionKey), ["asc", "desc"], "desc")
  {
    hide LookupOf;
    hide Get;
    hide StringOr;
    hide OneOf;
    hide WordIn;
    hide ChoiceIn;
    hide StringArrayOr;
    hide CanonicalSkills;
    WordRead(entries, StatusKey, "all");
    WordRead(entries, FreshnessKey, "all");
    WordRead(entries, SeniorityKey, "all");
    ChoiceRead(entries, FitKey, FIT_VALUES, ["have", "gaps", "all"], "all");
    ChoiceRead(
      entries, SortKey, SORT_VALUES,
      ["best", "eligibility", "cited_support", "recommendation", "newest", "score", "salary", "rating"], "best");
    ChoiceRead(entries, SortDirectionKey, DIRECTION_VALUES, ["asc", "desc"], "desc");
  }

  /** Every list holds the values under its own key, in order: skills as parsed, buckets translated. */
  lemma ListsRead<N>(host: Host<N>, entries: seq<Entry>)
    ensures var f := FiltersFromParams(host, entries);
            && f.skills == ParseSkills(Join(GetAll(entries, SkillKey), "\n"), host.lower)
            && f.employmentTypes == Filter(GetAll(entries, EmploymentTypeKey), Chosen)
            && f.workModes == Filter(GetAll(entries, WorkModeKey), Chosen)
            && f.eligibilityBuckets == NormalBuckets(Filter(GetAll(entries, EligibilityBucketKey), Chosen))
  {
    hide Get;
    hide GetAll;
    hide StringOr;
    hide OneOf;
    hide StringArrayOr;
    hide ParseSkills;
    hide Join;
    ListRead(entries, EmploymentTypeKey);
    ListRead(entries, WorkModeKey);
    ListRead(entries, EligibilityBucketKey);
    GetIsHead(entries, SkillKey);
  }

  lemma ChosenIff(s: string)
    ensures Selectable(s) <==> Chosen(s)
  {
    TrimBlank(s);
  }

  // -------------------------------------------------------------------- writing

  /** A setting that is not the default one, as the value to write. */
  function NotDefault(value: string, standard: string): seq<string> {
    if value != standard then [value] else []
  }

  lemma QueryValues<N>(entries: seq<Entry>, host: Host<N>, filters: RawFilters<N>, key: FilterKey)
    ensures GetAll(Query(entries, host, filters), key) == Written(host, Normalize(filters), key)
  {
    hide Normalize;
    hide Written;
    hide Get;
    hide GetAll;
    var f, q := Normalize(filters), Query(entries, host, filters);
    GetIsHead(q, key);
    EncodedReadsBack(Others(entries), k => Written(host, f, k), key);
  }

  /** A written query holds each word that is not the default under its own key. */
  lemma WordsWritten<N>(entries: seq<Entry>, host: Host<N>, filters: RawFilters<N>)
    ensures var q, f := Query(entries, host, filters), Normalize(filters);
            && GetAll(q, StatusKey) == NotDefault(f.status, "all")
            && GetAll(q, FitKey) == NotDefault(f.fit, "all")
            && GetAll(q, FreshnessKey) == NotDefault(f.freshness, "all")
            && GetAll(q, SeniorityKey) == NotDefault(f.seniority, "all")
            && GetAll(q, SortKey) == NotDefault(f.sort, "best")
            && GetAll(q, SortDirectionKey) == NotDefault(f.sortDirection, "desc")
  {
    hide Normalize;
    hide Query;
    hide GetAll;
    forall key ensures GetAll(Query(entries, host, filters), key) == Written(host, Normalize(filters), key) {
      QueryValues(entries, host, filters, key);
    }
  }

  /** Each number there is, printed. */
  lemma NumbersWritten<N>(entries: seq<Entry>, host: Host<N>, filters: RawFilters<N>)
    ensures var q, f := Query(entries, host, filters), Normalize(filters);
            && GetAll(q, SalaryMinKey) == (if f.salaryMin.Some? then [host.show(f.salaryMin.value)] else [])
            && GetAll(q, SalaryMaxKey) == (if f.salaryMax.Some? then [host.show(f.salaryMax.value)] else [])
            && GetAll(q, HourlyMinKey) == (if f.hourlyMin.Some? then [host.show(f.hourlyMin.value)] else [])
            && GetAll(q, HourlyMaxKey) == (if f.hourlyMax.Some? then [host.show(f.hourlyMax.value)] else [])
            && GetAll(q, PostedWithinDaysKey) ==
               (if f.postedWithinDays.Some? then [host.show(f.postedWithinDays.value)] else [])
            && GetAll(q, MinRatingKey) == (if f.minRating.Some? then [host.show(f.minRating.value)] else [])
            && GetAll(q, MinScoreKey) == (if f.minScore.Some? then [host.show(f.minScore.value)] else [])
            && GetAll(q, MaxScoreKey) == (if f.maxScore.Some? then [host.show(f.maxScore.value)] else [])
  {
    hide Normalize;
    hide Query;
    hide GetAll;
    forall key ensures GetAll(Query(entries, host, filters), key) == Written(host, Normalize(filters), key) {
      QueryValues(entries, host, filters, key);
    }
  }

  /** Each flag that is set, every entry of a list in order, and "false" where missing pay is to be left out. */
  lemma FlagsWritten<N>(entries: seq<Entry>, host: Host<N>, filters: RawFilters<N>)
    ensures var q, f := Query(entries, host, filters), Normalize(filters);
            && GetAll(q, IncludeMissingCompKey) == (if f.includeMissingComp then [] else ["false"])
            && GetAll(q, ExcludeExpiredKey) == (if f.excludeExpired then ["true"] else [])
            && GetAll(q, ExcludeStaleKey) == (if f.excludeStale then ["true"] else [])
            && GetAll(q, RelocationOnlyKey) == (if f.relocationOnly then ["true"] else [])
            && GetAll(q, VisaOnlyKey) == (if f.visaOnly then ["true"] else [])
            && GetAll(q, FounderOnlyKey) == (if f.founderOnly then ["true"] else [])
            && GetAll(q, GreenfieldOnlyKey) == (if f.greenfieldOnly then ["true"] else [])
            && GetAll(q, FreshOnlyKey) == (if f.freshOnly then ["true"] else [])
            && GetAll(q, SkillKey) == f.skills && GetAll(q, EmploymentTypeKey) == f.employmentTypes
            && GetAll(q, WorkModeKey) == f.workModes && GetAll(q, EligibilityBucketKey) == f.eligibilityBuckets
  {
    hide Normalize;
    hide Query;
    hide GetAll;
    forall key ensures GetAll(Query(entries, host, filters), key) == Written(host, Normalize(filters), key) {
      QueryValues(entries, host, filters, key);
    }
  }

  // -------------------------------------------------------------------- matching

  predicate Below(value: Option<real>, bound: Option<real>) {
    value.Some? && bound.Some? && value.value < bound.value
  }

  /** A pay range misses the wanted one: all of it lies below the minimum, or all of it above the maximum. */
  predicate Misses(low: Option<real>, high: Option<real>, min: Option<real>, max: Option<real>) {
    || (low.Some? && high.Some? && (Below(high, min) || Below(max, low)))
    || (low.Some? && high.None? && (Below(low, min) || Below(max, low)))
    || (low.None? && high.Some? && (Below(high, min) || Below(max, high)))
  }

  predicate NoPay(low: Option<real>, high: Option<real>) {
    low.None? && high.None?
  }

  /** The status of a review that is complete, readable and accepted. */
  function FitStatus(review: F.ReviewRecord): Option<F.FitStatus> {
    if !review.statusUnknown && review.projection.Some? && review.projection.value.mode == F.CompleteMaterial
       && F.Accepted(review.projection.value) && review.projection.value.evidenceFit.Some?
    then Some(review.projection.value.evidenceFit.value.status)
    else None
  }

  /** A review of the complete kind, readable or not: no numeric score is shown beside it. */
  predicate Unscored(review: F.ReviewRecord) {
    || review.statusUnknown
    || (review.projection.Some? && review.projection.value.mode == F.CompleteMaterial)
  }

  ghost predicate WantsSkill(l: Listing, skills: seq<string>, lower: string -> string) {
    exists want, have ::
      && want in skills
      && (have in ParseSkills(l.requiredSkills, lower) || have in ParseSkills(l.preferredSkills, lower))
      && lower(want) == lower(have)
  }

  function BucketName(bucket: A.Bucket): string {
    match bucket
    case Eligible => "eligible"
    case SponsorshipPossible => "sponsorship_possible"
    case LocationRestriction => "location_restriction"
    case UnknownBucket => "unknown"
    case Conflicting => "conflicting"
  }

  /** One dimension of the filter turns the record away. */
  ghost predicate Rejects(d: Dimension, l: Listing, f: Filters<real>, c: Context) {
    match d
    case StatusDimension => f.status != "all" && l.status != f.status
    case FitDimension =>
      || (f.fit == "have" && FitStatus(l.review) != Some(F.SupportsAll))
      || (f.fit == "gaps" && FitStatus(l.review) !in [Some(F.SupportedWithUncertainties), Some(F.NeedsEvidence)])
    case SkillsDimension => f.skills != [] && !WantsSkill(l, f.skills, c.lower)
    case SalaryDimension => Misses(l.salaryMin, l.salaryMax, f.salaryMin, f.salaryMax)
    case HourlyDimension => Misses(l.hourlyMin, l.hourlyMax, f.hourlyMin, f.hourlyMax)
    case MissingPayDimension =>
      && !f.includeMissingComp
      && (((f.salaryMin.Some? || f.salaryMax.Some?) && NoPay(l.salaryMin, l.salaryMax))
          || ((f.hourlyMin.Some? || f.hourlyMax.Some?) && NoPay(l.hourlyMin, l.hourlyMax)))
    case PostedDimension =>
      && f.postedWithinDays.Some?
      && (if l.postedAt.Some? then l.postedAt.value < c.now - f.postedWithinDays.value * 86400000.0
          else if l.firstSeenAt.Some? then l.firstSeenAt.value < c.now - f.postedWithinDays.value * 86400000.0
          else true)
    case ExpiredDimension => f.excludeExpired && l.expiresAt.Some? && l.expiresAt.value < c.now
    case StaleDimension => f.excludeStale && c.lower(Trim(l.freshness)) == "stale"
    case FreshnessDimension => f.freshness != "all" && l.freshness != f.freshness
    case EmploymentTypesDimension => f.employmentTypes != [] && l.employmentType !in f.employmentTypes
    case WorkModesDimension => f.workModes != [] && l.workMode !in f.workModes
    case BucketsDimension =>
      && f.eligibilityBuckets != []
      && BucketName(A.EligibilityView(l.sourceEligibility, l.assessment).bucket) !in f.eligibilityBuckets
    case SeniorityDimension => f.seniority != "all" && l.seniority != f.seniority
    case RelocationDimension => f.relocationOnly && !l.relocationSupported
    case VisaDimension => f.visaOnly && !l.visaOrEorPossible
    case FounderDimension => f.founderOnly && !l.founderSignal
    case GreenfieldDimension => f.greenfieldOnly && !l.greenfieldSignal
    case FreshDimension => f.freshOnly && c.lower(Trim(l.freshness)) != "fresh"
    case RatingDimension => f.minRating.Some? && (l.humanRating.None? || Below(l.humanRating, f.minRating))
    case ScoreDimension =>
      && (f.minScore.Some? || f.maxScore.Some?)
      && (Unscored(l.review) || l.latestScore.None?
          || Below(l.latestScore, f.minScore) || Below(f.maxScore, l.latestScore))
  }

  lemma PayIff(low: Option<real>, high: Option<real>, min: Option<real>, max: Option<real>, missing: bool)
    ensures MatchesPay(low, high, min, max, missing) <==>
            !Misses(low, high, min, max) && !(!missing && (min.Some? || max.Some?) && NoPay(low, high))
  {
  }

  lemma SkillsIff(l: Listing, f: Filters<real>, c: Context)
    ensures MatchesSkills(l, f.skills, c.lower) <==> !Rejects(SkillsDimension, l, f, c)
  {
    hide ParseSkills;
    var owned := ListingSkills(l, c.lower);
    var common := SkillKeys(f.skills, c.lower) * SkillKeys(owned, c.lower);
    if common != {} {
      var key :| key in common;
      var want :| want in f.skills && c.lower(want) == key;
      var have :| have in owned && c.lower(have) == key;
    }
    if want, have :|
      && want in f.skills
      && (have in ParseSkills(l.requiredSkills, c.lower) || have in ParseSkills(l.preferredSkills, c.lower))
      && c.lower(want) == c.lower(have)
    {
      assert have in owned && c.lower(want) in common;
    }
  }

  lemma BucketNamed(name: string, bucket: A.Bucket)
    ensures BucketOf(name) == Some(bucket) <==> name == BucketName(bucket)
  {
    assert "eligible"[0] == 'e' && "sponsorship_possible"[0] == 's' && "location_restriction"[0] == 'l';
    assert "unknown"[0] == 'u' && "conflicting"[0] == 'c';
  }

  lemma BucketsIff(l: Listing, f: Filters<real>, c: Context)
    ensures MatchesBuckets(l, f.eligibilityBuckets) <==> !Rejects(BucketsDimension, l, f, c)
  {
    hide A.EligibilityView;
    hide BucketOf;
    hide BucketName;
    forall name: string, bucket ensures BucketOf(name) == Some(bucket) <==> name == BucketName(bucket) {
      BucketNamed(name, bucket);
    }
  }

  lemma FitIff(l: Listing, f: Filters<real>, c: Context)
    ensures MatchesFit(l.review, f.fit) <==> !Rejects(FitDimension, l, f, c)
  {
    hide F.Accepted;
  }

  lemma ScoreIff(l: Listing, f: Filters<real>, c: Context)
    ensures MatchesScore(l, f.minScore, f.maxScore) <==> !Rejects(ScoreDimension, l, f, c)
  {
    hide F.Accepted;
  }

  lemma DatesIff(l: Listing, f: Filters<real>, c: Context)
    ensures MatchesDates(l, f, c.now) <==>
            !Rejects(PostedDimension, l, f, c) && !Rejects(ExpiredDimension, l, f, c)
  {
  }

  lemma WordsIff(l: Listing, f: Filters<real>, c: Context)
    ensures MatchesWords(l, f, c.lower) <==>
            && !Rejects(StatusDimension, l, f, c) && !Rejects(StaleDimension, l, f, c)
            && !Rejects(FreshnessDimension, l, f, c) && !Rejects(EmploymentTypesDimension, l, f, c)
            && !Rejects(WorkModesDimension, l, f, c) && !Rejects(SeniorityDimension, l, f, c)
            && !Rejects(FreshDimension, l, f, c)
  {
    hide Trim;
  }

  lemma SignalsIff(l: Listing, f: Filters<real>, c: Context)
    ensures MatchesSignals(l, f) <==>
            && !Rejects(RelocationDimension, l, f, c) && !Rejects(VisaDimension, l, f, c)
            && !Rejects(FounderDimension, l, f, c) && !Rejects(GreenfieldDimension, l, f, c)
  {
  }

  lemma PaysIff(l: Listing, f: Filters<real>, c: Context)
    ensures && MatchesPay(l.salaryMin, l.salaryMax, f.salaryMin, f.salaryMax, f.includeMissingComp)
            && MatchesPay(l.hourlyMin, l.hourlyMax, f.hourlyMin, f.hourlyMax, f.includeMissingComp)
            <==> !Rejects(SalaryDimension, l, f, c) && !Rejects(HourlyDimension, l, f, c)
                 && !Rejects(MissingPayDimension, l, f, c)
  {
    PayIff(l.salaryMin, l.salaryMax, f.salaryMin, f.salaryMax, f.includeMissingComp);
    PayIff(l.hourlyMin, l.hourlyMax, f.hourlyMin, f.hourlyMax, f.includeMissingComp);
  }

  /** A record is let through exactly when no dimension turns it away. */
  lemma MatchesIffNoneRejects(l: Listing, f: Filters<real>, c: Context)
    ensures Matches(l, f, c) <==> forall d: Dimension :: !Rejects(d, l, f, c)
  {
    hide Rejects;
    hide MatchesWords;
    hide MatchesFit;
    hide MatchesSkills;
    hide MatchesPay;
    hide MatchesDates;
    hide MatchesBuckets;
    hide MatchesSignals;
    hide MatchesScore;
    WordsIff(l, f, c);
    FitIff(l, f, c);
    SkillsIff(l, f, c);
    PaysIff(l, f, c);
    DatesIff(l, f, c);
    BucketsIff(l, f, c);
    SignalsIff(l, f, c);
    RatingIff(l, f, c);
    ScoreIff(l, f, c);
    if Matches(l, f, c) {
      forall d: Dimension ensures !Rejects(d, l, f, c) {
        match d
        case StatusDimension => case FitDimension => case SkillsDimension => case SalaryDimension =>
        case HourlyDimension => case MissingPayDimension => case PostedDimension => case ExpiredDimension =>
        case StaleDimension => case FreshnessDimension => case EmploymentTypesDimension =>
        case WorkModesDimension => case BucketsDimension => case SeniorityDimension => case RelocationDimension =>
        case VisaDimension => case FounderDimension => case GreenfieldDimension => case FreshDimension =>
        case RatingDimension => case ScoreDimension =>
      }
    }
  }

  lemma RatingIff(l: Listing, f: Filters<real>, c: Context)
    ensures MatchesRating(l, f.minRating) <==> !Rejects(RatingDimension, l, f, c)
  {
  }

  /** Only an active dimension turns a record away: the count of active filters misses none that narrows the list. */
  lemma RejectingIsActive(d: Dimension, l: Listing, f: Filters<real>, c: Context)
    requires Rejects(d, l, f, c)
    ensures d in ActiveDimensions(f)
  {
  }

  // ------------------------------------------------------ every counted filter narrows

  lemma {:induction false} NewWord(words: seq<string>) returns (w: string)
    ensures w !in words && forall x :: x in words ==> |x| < |w|
  {
    if words == [] {
      w := "";
    } else {
      var v := NewWord(words[1..]);
      w := v + words[0] + "!";
      forall x | x in words ensures |x| < |w| {
        assert x == words[0] || x in words[1..];
      }
    }
  }

  /** A record that says nothing. */
  function Silent(): Listing {
    Listing(
      "", "", "", "", "", "", "", None, None, None, None, None, None, None, false, false, false, false, None, None,
      F.ReviewRecord(None, false, None), None, None)
  }

  /** A current eligibility assessment that names the bucket and nothing else. */
  function InBucket(bucket: A.Bucket): Option<A.Assessment> {
    Some(A.Assessment(true, Some(bucket), None, None, None))
  }

  predicate AllBuckets(names: seq<string>) {
    forall name :: name in ["eligible", "sponsorship_possible", "location_restriction", "unknown", "conflicting"] ==>
      name in names
  }

  /** Some record is turned away by this dimension, at some time and under some letter-case mapping. */
  ghost predicate Narrows(d: Dimension, f: Filters<real>) {
    exists l, c :: Rejects(d, l, f, c)
  }

  lemma SilentSkills(lower: string -> string)
    ensures ParseSkills(Silent().requiredSkills, lower) == [] && ParseSkills(Silent().preferredSkills, lower) == []
  {
    NoSkills(lower);
  }

  lemma BucketWitness(f: Filters<real>, c: Context, bucket: A.Bucket)
    requires f.eligibilityBuckets != [] && BucketName(bucket) !in f.eligibilityBuckets
    ensures Rejects(BucketsDimension, Silent().(sourceEligibility := InBucket(bucket)), f, c)
  {
  }

  lemma BucketsNarrowIff(f: Filters<real>)
    ensures Narrows(BucketsDimension, f) <==> f.eligibilityBuckets != [] && !AllBuckets(f.eligibilityBuckets)
  {
    hide A.EligibilityView;
    var names, c := f.eligibilityBuckets, Context(0.0, (s: string) => s);
    if names != [] && !AllBuckets(names) {
      var bucket :| BucketName(bucket) !in names;
      BucketWitness(f, c, bucket);
    }
    if AllBuckets(names) {
      forall bucket ensures BucketName(bucket) in names {
        assert BucketName(bucket) in
               ["eligible", "sponsorship_possible", "location_restriction", "unknown", "conflicting"];
      }
    }
  }

  lemma PayNarrows(f: Filters<real>, c: Context)
    ensures HasRange(f.salaryMin, f.salaryMax) ==> Narrows(SalaryDimension, f)
    ensures HasRange(f.hourlyMin, f.hourlyMax) ==> Narrows(HourlyDimension, f)
  {
    var low, high :=
      if f.salaryMin.Some? then Some(f.salaryMin.value - 1.0) else None,
      if f.salaryMax.Some? then Some(f.salaryMax.value + 1.0) else None;
    var l := if low.Some? then Silent().(salaryMax := low) else Silent().(salaryMin := high);
    assert HasRange(f.salaryMin, f.salaryMax) ==> Rejects(SalaryDimension, l, f, c);
    var least, most :=
      if f.hourlyMin.Some? then Some(f.hourlyMin.value - 1.0) else None,
      if f.hourlyMax.Some? then Some(f.hourlyMax.value + 1.0) else None;
    var m := if least.Some? then Silent().(hourlyMax := least) else Silent().(hourlyMin := most);
    assert HasRange(f.hourlyMin, f.hourlyMax) ==> Rejects(HourlyDimension, m, f, c);
  }

  lemma TypesNarrow(f: Filters<real>, c: Context)
    ensures f.employmentTypes != [] ==> Narrows(EmploymentTypesDimension, f)
  {
    var w := NewWord(f.employmentTypes);
    var l := Silent().(employmentType := w);
    assert f.employmentTypes != [] ==> Rejects(EmploymentTypesDimension, l, f, c);
  }

  lemma ModesNarrow(f: Filters<real>, c: Context)
    ensures f.workModes != [] ==> Narrows(WorkModesDimension, f)
  {
    var w := NewWord(f.workModes);
    var l := Silent().(workMode := w);
    assert f.workModes != [] ==> Rejects(WorkModesDimension, l, f, c);
  }

  lemma SkillsNarrow(f: Filters<real>, c: Context)
    ensures f.skills != [] ==> Narrows(SkillsDimension, f)
  {
    hide ParseSkills;
    SilentSkills(c.lower);
    assert f.skills != [] ==> Rejects(SkillsDimension, Silent(), f, c);
  }

  lemma WordsNarrow(f: Filters<real>, c: Context)
    requires f.fit in FIT_VALUES
    ensures f.status != "all" ==> Narrows(StatusDimension, f)
    ensures f.freshness != "all" ==> Narrows(FreshnessDimension, f)
    ensures f.seniority != "all" ==> Narrows(SeniorityDimension, f)
    ensures f.fit != "all" ==> Narrows(FitDimension, f)
  {
    var l := Silent().(status := f.status + "!", freshness := f.freshness + "!", seniority := f.seniority + "!");
    assert |l.status| > |f.status| && |l.freshness| > |f.freshness| && |l.seniority| > |f.seniority|;
    assert f.status != "all" ==> Rejects(StatusDimension, l, f, c);
    assert f.freshness != "all" ==> Rejects(FreshnessDimension, l, f, c);
    assert f.seniority != "all" ==> Rejects(SeniorityDimension, l, f, c);
    assert f.fit != "all" ==> Rejects(FitDimension, l, f, c);
  }

  lemma FlagsNarrow(f: Filters<real>, c: Context)
    ensures f.relocationOnly ==> Narrows(RelocationDimension, f)
    ensures f.visaOnly ==> Narrows(VisaDimension, f)
    ensures f.founderOnly ==> Narrows(FounderDimension, f)
    ensures f.greenfieldOnly ==> Narrows(GreenfieldDimension, f)
    ensures f.excludeExpired ==> Narrows(ExpiredDimension, f)
  {
    var l := Silent();
    assert f.relocationOnly ==> Rejects(RelocationDimension, l, f, c);
    assert f.visaOnly ==> Rejects(VisaDimension, l, f, c);
    assert f.founderOnly ==> Rejects(FounderDimension, l, f, c);
    assert f.greenfieldOnly ==> Rejects(GreenfieldDimension, l, f, c);
    assert f.excludeExpired ==> Rejects(ExpiredDimension, l.(expiresAt := Some(c.now - 1.0)), f, c);
  }

  lemma FreshnessRejects(l: Listing, f: Filters<real>, c: Context)
    requires c.lower(Trim(l.freshness)) == "stale"
    ensures f.freshOnly ==> Rejects(FreshDimension, l, f, c)
    ensures f.excludeStale ==> Rejects(StaleDimension, l, f, c)
  {
    hide Trim;
    assert "stale"[0] == 's' && "fresh"[0] == 'f';
  }

  lemma FreshnessNarrows(f: Filters<real>, c: Context)
    requires c.lower("stale") == "stale"
    ensures f.freshOnly ==> Narrows(FreshDimension, f)
    ensures f.excludeStale ==> Narrows(StaleDimension, f)
  {
    hide Trim;
    hide Rejects;
    TrimWord("stale");
    FreshnessRejects(Silent().(freshness := "stale"), f, c);
  }

  lemma NumbersNarrow(f: Filters<real>, c: Context)
    ensures f.postedWithinDays.Some? ==> Narrows(PostedDimension, f)
    ensures f.minRating.Some? ==> Narrows(RatingDimension, f)
    ensures HasRange(f.minScore, f.maxScore) ==> Narrows(ScoreDimension, f)
    ensures !f.includeMissingComp && (HasRange(f.salaryMin, f.salaryMax) || HasRange(f.hourlyMin, f.hourlyMax)) ==>
              Narrows(MissingPayDimension, f)
  {
    var l := Silent();
    assert f.postedWithinDays.Some? ==> Rejects(PostedDimension, l, f, c);
    assert f.minRating.Some? ==> Rejects(RatingDimension, l, f, c);
    assert HasRange(f.minScore, f.maxScore) ==> Rejects(ScoreDimension, l, f, c);
    assert !f.includeMissingComp && (HasRange(f.salaryMin, f.salaryMax) || HasRange(f.hourlyMin, f.hourlyMax)) ==>
             Rejects(MissingPayDimension, l, f, c);
  }

  lemma NarrowingIsActive(d: Dimension, f: Filters<real>)
    ensures Narrows(d, f) ==> d in ActiveDimensions(f)
  {
    hide Rejects;
    hide ActiveDimensions;
    if l, c :| Rejects(d, l, f, c) {
      RejectingIsActive(d, l, f, c);
    }
  }

  lemma ActiveIff(d: Dimension, f: Filters<real>)
    ensures d in ActiveDimensions(f) <==> IsActive(f, d)
  {
  }

  /**
   The filters counted as active are exactly those that some record fails, but for one: a choice of all five
   eligibility buckets is counted and turns no record away.
   */
  lemma NarrowsIffActive(d: Dimension, f: Filters<real>)
    requires f.fit in FIT_VALUES
    ensures Narrows(d, f) <==>
            d in ActiveDimensions(f) && (d == BucketsDimension ==> !AllBuckets(f.eligibilityBuckets))
  {
    hide Rejects;
    hide Narrows;
    hide AllBuckets;
    hide Silent;
    hide ActiveDimensions;
    hide HasRange;
    ActiveIff(d, f);
    var c := Context(0.0, (s: string) => s);
    NarrowingIsActive(d, f);
    PayNarrows(f, c);
    TypesNarrow(f, c);
    ModesNarrow(f, c);
    SkillsNarrow(f, c);
    WordsNarrow(f, c);
    FlagsNarrow(f, c);
    FreshnessNarrows(f, c);
    NumbersNarrow(f, c);
    BucketsNarrowIff(f);
    match d
    case StatusDimension => case FitDimension => case SkillsDimension => case SalaryDimension =>
    case HourlyDimension => case MissingPayDimension => case PostedDimension => case ExpiredDimension =>
    case StaleDimension => case FreshnessDimension => case EmploymentTypesDimension => case WorkModesDimension =>
    case BucketsDimension => case SeniorityDimension => case RelocationDimension => case VisaDimension =>
    case FounderDimension => case GreenfieldDimension => case FreshDimension => case RatingDimension =>
    case ScoreDimension =>
  }

  // ------------------------------------------------------------------ offered values

  ghost predicate Holds(l: Listing, field: WordField, value: string) {
    match field
    case StatusField => Trim(l.status) == value
    case EmploymentTypeField => Trim(l.employmentType) == value
    case WorkModeField => Trim(l.workMode) == value
    case SeniorityField => Trim(l.seniority) == value
    case FreshnessField => Trim(l.freshness) == value
  }

  /** The drawer offers what some record holds in that field, trimmed; blanks never, "unknown" as a status only. */
  lemma OfferedIff(listings: seq<Listing>, field: WordField, value: string)
    ensures value in OfferedWords(listings, field) <==>
            && |value| > 0 && (field != StatusField ==> value != "unknown")
            && exists l :: l in listings && Holds(l, field, value)
  {
    hide Trim;
    if l :| l in listings && Holds(l, field, value) {
      assert Trim(Raw(l, field)) == value;
    }
    if value in OfferedWords(listings, field) {
      var l :| l in listings && Offerable(field, Trim(Raw(l, field))) && Trim(Raw(l, field)) == value;
      assert Holds(l, field, value);
    }
  }

  // ------------------------------------------------------------------------ skills

  /** Skills are separated by commas and line feeds, trimmed, and never empty. */
  lemma SkillPartsMean(first: string, c: char, rest: string)
    requires forall i :: 0 <= i < |first| ==> first[i] != ',' && first[i] != '\n'
    requires c == ',' || c == '\n'
    ensures SkillParts(first) == if Trim(first) == "" then [] else [Trim(first)]
    ensures SkillParts(first + [c] + rest) == SkillParts(first) + SkillParts(rest)
  {
    hide Trim;
    var others := Split(rest, SkillSeparator);
    SplitWhole(first, SkillSeparator);
    SplitAt(first, c, rest, SkillSeparator);
    MapAppend([first], others, Trim);
    FilterAppend(Map([first], Trim), Map(others, Trim), NonEmpty);
    assert Map([first], Trim) == [Trim(first)];
    assert [Trim(first)][1..] == [];
  }

  /** A part is kept exactly when none before it agrees with it up to letter case; what is kept stays in order. */
  lemma FirstKept(parts: seq<string>, x: string, lower: string -> string)
    ensures FirstByKey([], lower) == []
    ensures FirstByKey(parts + [x], lower) ==
            FirstByKey(parts, lower)
            + if exists i :: 0 <= i < |parts| && lower(parts[i]) == lower(x) then [] else [x]
  {
    FirstByKeyStep(parts, x, lower);
    FirstByKeyMeaning(parts, lower);
    var r := FirstByKey(parts, lower);
    if HasKey(r, lower(x), lower) {
      var k :| 0 <= k < |r| && lower(r[k]) == lower(x);
      assert r[k] in parts;
    }
    if i :| 0 <= i < |parts| && lower(parts[i]) == lower(x) {
      assert parts[i] in parts;
    }
  }

  /** Required skills come before preferred ones, record by record. */
  lemma SkillsInOrder(listings: seq<Listing>, l: Listing, lower: string -> string)
    ensures AllSkills([], lower) == []
    ensures AllSkills(listings + [l], lower) ==
            AllSkills(listings, lower) + ParseSkills(l.requiredSkills, lower) + ParseSkills(l.preferredSkills, lower)
  {
    hide ParseSkills;
    assert (listings + [l])[..|listings|] == listings;
  }
}
