/** The opportunity list's filters: normalisation, and their life in a URL query string. */
module FilterState {
  import opened Sequences
  import opened JsText

  /** What the host runtime supplies: number printing and reading, and lower-casing. */
  datatype Host<!N> = Host(show: N -> string, parse: string -> Option<N>, lower: string -> string)

  /** A printed finite number reads back as itself, and "true" is already lower case. */
  ghost predicate Lawful<N(!new)>(host: Host<N>) {
    && (forall x :: host.parse(host.show(x)) == Some(x) && !Blank(host.show(x)))
    && host.lower("true") == "true"
  }

  datatype Filters<N> = Filters(
    status: string, fit: string, skills: seq<string>,
    salaryMin: Option<N>, salaryMax: Option<N>, hourlyMin: Option<N>, hourlyMax: Option<N>,
    includeMissingComp: bool, postedWithinDays: Option<N>, excludeExpired: bool, excludeStale: bool,
    freshness: string, employmentTypes: seq<string>, workModes: seq<string>, eligibilityBuckets: seq<string>,
    seniority: string, relocationOnly: bool, visaOnly: bool, founderOnly: bool, greenfieldOnly: bool,
    freshOnly: bool, minRating: Option<N>, minScore: Option<N>, maxScore: Option<N>,
    sort: string, sortDirection: string)

  /** An untrusted blob: None where a field is missing or of the wrong type. */
  datatype RawFilters<N> = RawFilters(
    status: Option<string>, fit: Option<string>, skills: Option<seq<string>>,
    salaryMin: Option<N>, salaryMax: Option<N>, hourlyMin: Option<N>, hourlyMax: Option<N>,
    includeMissingComp: Option<bool>, postedWithinDays: Option<N>,
    excludeExpired: Option<bool>, excludeStale: Option<bool>,
    freshness: Option<string>,
    employmentTypes: Option<seq<string>>, employmentType: Option<string>,
    workModes: Option<seq<string>>, workMode: Option<string>,
    eligibilityBuckets: Option<seq<string>>,
    seniority: Option<string>, relocationOnly: Option<bool>, visaOnly: Option<bool>, founderOnly: Option<bool>,
    greenfieldOnly: Option<bool>, freshOnly: Option<bool>,
    minRating: Option<N>, minScore: Option<N>, maxScore: Option<N>,
    sort: Option<string>, sortDirection: Option<string>)

  const FIT_VALUES := {"have", "gaps", "all"}
  const SORT_VALUES :=
    {"best", "eligibility", "cited_support", "recommendation", "newest", "score", "salary", "rating"}
  const DIRECTION_VALUES := {"asc", "desc"}
  const BUCKET_VALUES := {"eligible", "sponsorship_possible", "location_restriction", "unknown", "conflicting"}

  // -------------------------------------------------------------- normalising

  function StringOr(value: Option<string>, fallback: string): string {
    if value.Some? && value.value != "" then value.value else fallback
  }

  function BoolOr(value: Option<bool>, fallback: bool): bool {
    if value.Some? then value.value else fallback
  }

  function OneOf(value: Option<string>, allowed: set<string>, fallback: string): string {
    if value.Some? && value.value in allowed then value.value else fallback
  }

  predicate Selectable(entry: string) {
    !Blank(entry) && entry != "all"
  }

  function StringArrayOr(value: Option<seq<string>>, legacy: Option<string>): seq<string> {
    Filter(if value.Some? then value.value else if legacy.Some? then [legacy.value] else [], Selectable)
  }

  /** Saved bucket names of an earlier scheme are translated; unknown names are dropped. */
  function NormalBucket(bucket: string): Option<string> {
    var normalized :=
      if bucket == "canada_eligible" then "eligible"
      else if bucket == "us_residence_required" || bucket == "incompatible" then "location_restriction"
      else bucket;
    if normalized in BUCKET_VALUES then Some(normalized) else None
  }

  function NormalBuckets(buckets: seq<string>): (r: seq<string>)
    ensures forall b :: b in r ==> b in BUCKET_VALUES
  {
    if buckets == [] then []
    else
      var rest := NormalBuckets(buckets[1..]);
      if NormalBucket(buckets[0]).Some? then [NormalBucket(buckets[0]).value] + rest else rest
  }

  function Normalize<N>(raw: RawFilters<N>): Filters<N> {
    Filters(
      StringOr(raw.status, "all"),
      OneOf(raw.fit, FIT_VALUES, "all"),
      if raw.skills.Some? then raw.skills.value else [],
      raw.salaryMin, raw.salaryMax, raw.hourlyMin, raw.hourlyMax,
      BoolOr(raw.includeMissingComp, true), raw.postedWithinDays,
      BoolOr(raw.excludeExpired, false), BoolOr(raw.excludeStale, false),
      StringOr(raw.freshness, "all"),
      StringArrayOr(raw.employmentTypes, raw.employmentType),
      StringArrayOr(raw.workModes, raw.workMode),
      NormalBuckets(StringArrayOr(raw.eligibilityBuckets, None)),
      StringOr(raw.seniority, "all"),
      BoolOr(raw.relocationOnly, false), BoolOr(raw.visaOnly, false), BoolOr(raw.founderOnly, false),
      BoolOr(raw.greenfieldOnly, false), BoolOr(raw.freshOnly, false),
      raw.minRating, raw.minScore, raw.maxScore,
      OneOf(raw.sort, SORT_VALUES, "best"),
      OneOf(raw.sortDirection, DIRECTION_VALUES, "desc"))
  }

  function AsRaw<N>(f: Filters<N>): RawFilters<N> {
    RawFilters(
      Some(f.status), Some(f.fit), Some(f.skills), f.salaryMin, f.salaryMax, f.hourlyMin, f.hourlyMax,
      Some(f.includeMissingComp), f.postedWithinDays, Some(f.excludeExpired), Some(f.excludeStale),
      Some(f.freshness), Some(f.employmentTypes), None, Some(f.workModes), None, Some(f.eligibilityBuckets),
      Some(f.seniority), Some(f.relocationOnly), Some(f.visaOnly), Some(f.founderOnly), Some(f.greenfieldOnly),
      Some(f.freshOnly), f.minRating, f.minScore, f.maxScore, Some(f.sort), Some(f.sortDirection))
  }

  // ---------------------------------------------------------------- skill lists

  predicate SkillSeparator(c: char) {
    c == '\n' || c == ','
  }

  predicate HasKey(skills: seq<string>, key: string, lower: string -> string) {
    exists i :: 0 <= i < |skills| && lower(skills[i]) == key
  }

  ghost predicate DistinctKeys(skills: seq<string>, lower: string -> string) {
    forall i, j :: 0 <= i < j < |skills| ==> lower(skills[i]) != lower(skills[j])
  }

  /** Keeps the first of the entries that agree up to letter case. */
  function FirstByKey(parts: seq<string>, lower: string -> string): seq<string> {
    if parts == [] then []
    else
      var n := |parts| - 1;
      var init := FirstByKey(parts[..n], lower);
      if HasKey(init, lower(parts[n]), lower) then init else init + [parts[n]]
  }

  lemma HasKeyAppend(skills: seq<string>, x: string, key: string, lower: string -> string)
    ensures HasKey(skills + [x], key, lower) <==> HasKey(skills, key, lower) || lower(x) == key
  {
    var longer := skills + [x];
    assert longer[|skills|] == x;
    if HasKey(skills, key, lower) {
      var i :| 0 <= i < |skills| && lower(skills[i]) == key;
      assert longer[i] == skills[i];
    }
  }

  /** What is kept is distinct up to letter case, and represents everything. */
  lemma {:induction false} FirstByKeyMeaning(parts: seq<string>, lower: string -> string)
    ensures var r := FirstByKey(parts, lower);
            && DistinctKeys(r, lower)
            && (forall x :: x in r ==> x in parts)
            && (forall x :: x in parts ==> HasKey(r, lower(x), lower))
  {
    if parts == [] {
    } else {
      var n := |parts| - 1;
      FirstByKeyMeaning(parts[..n], lower);
      var init, r := FirstByKey(parts[..n], lower), FirstByKey(parts, lower);
      forall x | x in parts ensures HasKey(r, lower(x), lower) {
        HasKeyAppend(init, parts[n], lower(x), lower);
        assert x in parts[..n] || x == parts[n];
      }
    }
  }

  /** A list without repetitions up to letter case is kept whole. */
  lemma {:induction false} FirstByKeyFixed(parts: seq<string>, lower: string -> string)
    requires DistinctKeys(parts, lower)
    ensures FirstByKey(parts, lower) == parts
  {
    if parts == [] {
    } else {
      var n := |parts| - 1;
      FirstByKeyFixed(parts[..n], lower);
      assert parts[..n] + [parts[n]] == parts;
    }
  }

  function SkillParts(value: string): seq<string> {
    Filter(Map(Split(value, SkillSeparator), Trim), NonEmpty)
  }

  function ParseSkills(value: string, lower: string -> string): seq<string> {
    FirstByKey(SkillParts(value), lower)
  }

  /** The skills found in the first `i` parts. */
  function SkillsUpTo(parts: seq<string>, i: nat, trim: string -> string, lower: string -> string): seq<string>
    requires i <= |parts|
  {
    FirstByKey(Filter(Map(parts[..i], trim), NonEmpty), lower)
  }

  lemma FirstByKeyStep(parts: seq<string>, x: string, lower: string -> string)
    ensures FirstByKey(parts + [x], lower) ==
            FirstByKey(parts, lower) + if HasKey(FirstByKey(parts, lower), lower(x), lower) then [] else [x]
  {
    assert (parts + [x])[..|parts|] == parts;
  }

  lemma SkillsStep(parts: seq<string>, i: nat, trim: string -> string, lower: string -> string)
    requires i < |parts|
    ensures var before, trimmed := SkillsUpTo(parts, i, trim, lower), trim(parts[i]);
            SkillsUpTo(parts, i + 1, trim, lower) ==
            before + if trimmed == "" || HasKey(before, lower(trimmed), lower) then [] else [trimmed]
  {
    var kept, trimmed := Filter(Map(parts[..i], trim), NonEmpty), trim(parts[i]);
    FilterMapStep(parts, i, trim, NonEmpty);
    FirstByKeyStep(kept, trimmed, lower);
    assert kept + [] == kept;
  }

  ghost predicate Seen(seen: set<string>, skills: seq<string>, lower: string -> string) {
    forall key :: key in seen <==> HasKey(skills, key, lower)
  }

  lemma SeenStep(seen: set<string>, skills: seq<string>, x: string, lower: string -> string)
    requires Seen(seen, skills, lower)
    ensures Seen(seen + {lower(x)}, skills + [x], lower)
  {
    forall key ensures key in seen + {lower(x)} <==> HasKey(skills + [x], key, lower) {
      HasKeyAppend(skills, x, key, lower);
    }
  }

  /** One pass with a set of the keys already seen. */
  method ParseSkillList(value: string, lower: string -> string) returns (out: seq<string>)
    ensures out == ParseSkills(value, lower)
  {
    var seen: set<string> := {};
    out := [];
    var parts := Split(value, SkillSeparator);
    for i := 0 to |parts|
      invariant out == SkillsUpTo(parts, i, Trim, lower)
      invariant Seen(seen, out, lower)
    {
      var trimmed := Trim(parts[i]);
      SkillsStep(parts, i, Trim, lower);
      if trimmed == "" {
        continue;
      }
      var key := lower(trimmed);
      if key in seen {
        continue;
      }
      SeenStep(seen, out, trimmed, lower);
      seen := seen + {key};
      out := out + [trimmed];
    }
    assert parts[..|parts|] == parts;
  }

  // -------------------------------------------------------------- query strings

  datatype FilterKey =
    | StatusKey | FitKey | SkillKey | SalaryMinKey | SalaryMaxKey | HourlyMinKey | HourlyMaxKey
    | IncludeMissingCompKey | PostedWithinDaysKey | ExcludeExpiredKey | ExcludeStaleKey | FreshnessKey
    | EmploymentTypeKey | WorkModeKey | EligibilityBucketKey | SeniorityKey | RelocationOnlyKey | VisaOnlyKey
    | FounderOnlyKey | GreenfieldOnlyKey | FreshOnlyKey | MinRatingKey | MinScoreKey | MaxScoreKey
    | SortKey | SortDirectionKey

  const FILTER_KEYS: seq<FilterKey> := [
    StatusKey, FitKey, SkillKey, SalaryMinKey, SalaryMaxKey, HourlyMinKey, HourlyMaxKey,
    IncludeMissingCompKey, PostedWithinDaysKey, ExcludeExpiredKey, ExcludeStaleKey, FreshnessKey,
    EmploymentTypeKey, WorkModeKey, EligibilityBucketKey, SeniorityKey, RelocationOnlyKey, VisaOnlyKey,
    FounderOnlyKey, GreenfieldOnlyKey, FreshOnlyKey, MinRatingKey, MinScoreKey, MaxScoreKey,
    SortKey, SortDirectionKey]

  /** A query parameter name: one of the filter's own, or any other. */
  datatype ParamKey = Own(key: FilterKey) | Other(name: string)
  datatype Entry = Entry(key: ParamKey, value: string)

  function EntryValue(e: Entry): string { e.value }

  function ValuesOf(entries: seq<Entry>, key: ParamKey): seq<string> {
    Map(Filter(entries, (e: Entry) => e.key == key), EntryValue)
  }

  /** The parameters that are none of the filter's. */
  function Others(entries: seq<Entry>): seq<Entry> {
    Filter(entries, (e: Entry) => e.key.Other?)
  }

  function Without(entries: seq<Entry>, key: ParamKey): seq<Entry> {
    Filter(entries, (e: Entry) => e.key != key)
  }

  /** URLSearchParams.set: the first occurrence takes the value, the others go; else it is appended. */
  function Replaced(entries: seq<Entry>, key: ParamKey, value: string): seq<Entry> {
    if entries == [] then [Entry(key, value)]
    else if entries[0].key == key then [Entry(key, value)] + Without(entries[1..], key)
    else [entries[0]] + Replaced(entries[1..], key, value)
  }

  class SearchParams {
    var entries: seq<Entry>

    constructor (initial: seq<Entry>)
      ensures entries == initial
    {
      entries := initial;
    }

    method Delete(key: ParamKey)
      modifies this
      ensures entries == Without(old(entries), key)
      ensures forall k :: ValuesOf(entries, k) == if k == key then [] else ValuesOf(old(entries), k)
    {
      entries := Without(entries, key);
      forall k ensures ValuesOf(entries, k) == if k == key then [] else ValuesOf(old(entries), k) {
        DeletedValues(old(entries), key, k);
      }
    }

    method Append(key: ParamKey, value: string)
      modifies this
      ensures entries == old(entries) + [Entry(key, value)]
      ensures forall k :: ValuesOf(entries, k) == ValuesOf(old(entries), k) + if k == key then [value] else []
    {
      entries := entries + [Entry(key, value)];
      forall k ensures ValuesOf(entries, k) == ValuesOf(old(entries), k) + if k == key then [value] else [] {
        AppendedValues(old(entries), key, value, k);
      }
    }

    method Set(key: ParamKey, value: string)
      modifies this
      ensures entries == Replaced(old(entries), key, value)
      ensures forall k :: ValuesOf(entries, k) == if k == key then [value] else ValuesOf(old(entries), k)
    {
      entries := Replaced(entries, key, value);
      forall k ensures ValuesOf(entries, k) == if k == key then [value] else ValuesOf(old(entries), k) {
        SetValues(old(entries), key, value, k);
      }
    }

  }

  /** After deleting a key, it reads as absent and every other key reads as before. */
  lemma {:induction false} DeletedValues(entries: seq<Entry>, key: ParamKey, k: ParamKey)
    ensures ValuesOf(Without(entries, key), k) == if k == key then [] else ValuesOf(entries, k)
  {
    if k == key {
      FilterNone(Without(entries, key), (e: Entry) => e.key == k);
    } else {
      FilterFilter(entries, (e: Entry) => e.key != key, (e: Entry) => e.key == k, (e: Entry) => e.key == k);
    }
  }

  /** Appending adds one value behind those of its key, and leaves every other key. */
  lemma AppendedValues(entries: seq<Entry>, key: ParamKey, value: string, k: ParamKey)
    ensures ValuesOf(entries + [Entry(key, value)], k) == ValuesOf(entries, k) + if k == key then [value] else []
  {
    ValuesAppend(entries, [Entry(key, value)], k);
    OneValue(key, value, k);
  }

  lemma OneValue(key: ParamKey, value: string, k: ParamKey)
    ensures ValuesOf([Entry(key, value)], k) == if k == key then [value] else []
  {
    assert [Entry(key, value)][1..] == [];
  }

  /** Setting a key makes the value its only one, however many it had, and leaves every other key. */
  lemma {:induction false} SetValues(entries: seq<Entry>, key: ParamKey, value: string, k: ParamKey)
    ensures ValuesOf(Replaced(entries, key, value), k) == if k == key then [value] else ValuesOf(entries, k)
  {
    OneValue(key, value, k);
    if entries == [] {
    } else {
      var rest := entries[1..];
      assert entries == [entries[0]] + rest;
      ValuesAppend([entries[0]], rest, k);
      OneValue(entries[0].key, entries[0].value, k);
      assert entries[0] == Entry(entries[0].key, entries[0].value);
      if entries[0].key == key {
        DeletedValues(rest, key, k);
        ValuesAppend([Entry(key, value)], Without(rest, key), k);
      } else {
        SetValues(rest, key, value, k);
        ValuesAppend([entries[0]], Replaced(rest, key, value), k);
      }
    }
  }

  function Tagged(key: ParamKey, values: seq<string>): seq<Entry> {
    Map(values, (v: string) => Entry(key, v))
  }

  lemma {:induction false} ReplacedAppends(entries: seq<Entry>, key: ParamKey, value: string)
    requires forall e :: e in entries ==> e.key != key
    ensures Replaced(entries, key, value) == entries + [Entry(key, value)]
  {
    if entries == [] {
    } else {
      ReplacedAppends(entries[1..], key, value);
      assert [entries[0]] + (entries[1..] + [Entry(key, value)]) == entries + [Entry(key, value)];
    }
  }

  lemma TaggedValues(key: ParamKey, values: seq<string>, other: ParamKey)
    ensures ValuesOf(Tagged(key, values), other) == if other == key then values else []
    ensures key.Own? ==> Others(Tagged(key, values)) == []
  {
    var same, outside := (e: Entry) => e.key == other, (e: Entry) => e.key.Other?;
    var added := Tagged(key, values);
    if other == key {
      FilterAll(added, same);
      assert Map(added, EntryValue) == values;
    } else {
      FilterNone(added, same);
    }
    if key.Own? {
      FilterNone(added, outside);
    }
  }

  lemma ValuesAppend(a: seq<Entry>, b: seq<Entry>, key: ParamKey)
    ensures ValuesOf(a + b, key) == ValuesOf(a, key) + ValuesOf(b, key)
    ensures Others(a + b) == Others(a) + Others(b)
  {
    var same := (e: Entry) => e.key == key;
    FilterAppend(a, b, same);
    FilterAppend(a, b, (e: Entry) => e.key.Other?);
    MapAppend(Filter(a, same), Filter(b, same), EntryValue);
  }

  // ------------------------------------------------------------------- writing

  /** Values under each of the filter's keys. */
  type Lookup = FilterKey -> seq<string>

  function Unless(value: string, standard: string): seq<string> {
    if value == standard then [] else [value]
  }

  function Number<N>(host: Host<N>, value: Option<N>): seq<string> {
    if value.Some? then [host.show(value.value)] else []
  }

  function Flag(value: bool): seq<string> {
    if value then ["true"] else []
  }

  /** What a normalised state writes under each of its keys; defaults write nothing. */
  function Written<N>(host: Host<N>, f: Filters<N>, key: FilterKey): seq<string> {
    match key
    case StatusKey => Unless(f.status, "all")
    case FitKey => Unless(f.fit, "all")
    case SkillKey => f.skills
    case SalaryMinKey => Number(host, f.salaryMin)
    case SalaryMaxKey => Number(host, f.salaryMax)
    case HourlyMinKey => Number(host, f.hourlyMin)
    case HourlyMaxKey => Number(host, f.hourlyMax)
    case IncludeMissingCompKey => if f.includeMissingComp then [] else ["false"]
    case PostedWithinDaysKey => Number(host, f.postedWithinDays)
    case ExcludeExpiredKey => Flag(f.excludeExpired)
    case ExcludeStaleKey => Flag(f.excludeStale)
    case FreshnessKey => Unless(f.freshness, "all")
    case EmploymentTypeKey => f.employmentTypes
    case WorkModeKey => f.workModes
    case EligibilityBucketKey => f.eligibilityBuckets
    case SeniorityKey => Unless(f.seniority, "all")
    case RelocationOnlyKey => Flag(f.relocationOnly)
    case VisaOnlyKey => Flag(f.visaOnly)
    case FounderOnlyKey => Flag(f.founderOnly)
    case GreenfieldOnlyKey => Flag(f.greenfieldOnly)
    case FreshOnlyKey => Flag(f.freshOnly)
    case MinRatingKey => Number(host, f.minRating)
    case MinScoreKey => Number(host, f.minScore)
    case MaxScoreKey => Number(host, f.maxScore)
    case SortKey => Unless(f.sort, "best")
    case SortDirectionKey => Unless(f.sortDirection, "desc")
  }

  /** The values `w` assigns, as entries in the order of `keys`. */
  function Encoded(keys: seq<FilterKey>, w: Lookup): seq<Entry> {
    if keys == [] then []
    else Encoded(keys[..|keys| - 1], w) + Tagged(Own(keys[|keys| - 1]), w(keys[|keys| - 1]))
  }

  lemma EncodedStep(keys: seq<FilterKey>, key: FilterKey, w: Lookup)
    ensures Encoded(keys + [key], w) == Encoded(keys, w) + Tagged(Own(key), w(key))
  {
    assert (keys + [key])[..|keys|] == keys;
  }

  lemma {:induction false} EncodedKeys(keys: seq<FilterKey>, w: Lookup)
    ensures forall e :: e in Encoded(keys, w) ==> e.key.Own? && e.key.key in keys
  {
    if keys == [] {
    } else {
      EncodedKeys(keys[..|keys| - 1], w);
    }
  }

  lemma TaggedBehind(entries: seq<Entry>, last: FilterKey, values: seq<string>, k: FilterKey)
    ensures ValuesOf(entries + Tagged(Own(last), values), Own(k)) ==
            ValuesOf(entries, Own(k)) + if k == last then values else []
    ensures Others(entries + Tagged(Own(last), values)) == Others(entries)
  {
    TaggedValues(Own(last), values, Own(k));
    ValuesAppend(entries, Tagged(Own(last), values), Own(k));
  }

  /** Each key's values can be found again among the encoded entries. */
  lemma {:induction false} EncodedValues(keys: seq<FilterKey>, w: Lookup, k: FilterKey)
    requires Distinct(keys)
    ensures ValuesOf(Encoded(keys, w), Own(k)) == if k in keys then w(k) else []
    ensures Others(Encoded(keys, w)) == []
  {
    if keys == [] {
    } else {
      var init, last := keys[..|keys| - 1], keys[|keys| - 1];
      assert keys == init + [last];
      DistinctAppend(init, last);
      EncodedValues(init, w, k);
      TaggedBehind(Encoded(init, w), last, w(last), k);
    }
  }

  function KeyIndex(k: FilterKey): nat {
    match k
    case StatusKey => 0 case FitKey => 1 case SkillKey => 2 case SalaryMinKey => 3 case SalaryMaxKey => 4
    case HourlyMinKey => 5 case HourlyMaxKey => 6 case IncludeMissingCompKey => 7 case PostedWithinDaysKey => 8
    case ExcludeExpiredKey => 9 case ExcludeStaleKey => 10 case FreshnessKey => 11 case EmploymentTypeKey => 12
    case WorkModeKey => 13 case EligibilityBucketKey => 14 case SeniorityKey => 15 case RelocationOnlyKey => 16
    case VisaOnlyKey => 17 case FounderOnlyKey => 18 case GreenfieldOnlyKey => 19 case FreshOnlyKey => 20
    case MinRatingKey => 21 case MinScoreKey => 22 case MaxScoreKey => 23 case SortKey => 24
    case SortDirectionKey => 25
  }

  lemma KeyListed(k: FilterKey)
    ensures k in FILTER_KEYS
  {
    assert FILTER_KEYS[KeyIndex(k)] == k;
  }

  lemma KeysDistinct()
    ensures Distinct(FILTER_KEYS)
  {
    forall i, j | 0 <= i < j < |FILTER_KEYS| ensures FILTER_KEYS[i] != FILTER_KEYS[j] {
      assert KeyIndex(FILTER_KEYS[i]) == i && KeyIndex(FILTER_KEYS[j]) == j;
    }
  }

  /** Deletes every filter parameter. */
  method Clear(params: SearchParams)
    modifies params
    ensures params.entries == Others(old(params.entries))
  {
    hide Unlisted;
    hide Without;
    hide Others;
    ghost var before := params.entries;
    NothingDeleted(before);
    var all := FILTER_KEYS;
    for i := 0 to |all|
      invariant params.entries == Unlisted(before, all[..i])
    {
      params.Delete(Own(all[i]));
      DeleteStep(before, all[..i], all[i]);
      assert all[..i + 1] == all[..i] + [all[i]];
    }
    assert all[..|all|] == all;
    OnlyOthersLeft(before);
  }

  /** The entries under none of these filter keys. */
  function Unlisted(entries: seq<Entry>, keys: seq<FilterKey>): seq<Entry> {
    Filter(entries, (e: Entry) => e.key.Other? || e.key.key !in keys)
  }

  lemma NothingDeleted(entries: seq<Entry>)
    ensures Unlisted(entries, FILTER_KEYS[..0]) == entries
  {
    FilterAll(entries, (e: Entry) => e.key.Other? || e.key.key !in FILTER_KEYS[..0]);
  }

  lemma DeleteStep(entries: seq<Entry>, keys: seq<FilterKey>, key: FilterKey)
    ensures Without(Unlisted(entries, keys), Own(key)) == Unlisted(entries, keys + [key])
  {
    FilterFilter(entries, (e: Entry) => e.key.Other? || e.key.key !in keys, (e: Entry) => e.key != Own(key),
                 (e: Entry) => e.key.Other? || e.key.key !in keys + [key]);
  }

  lemma OnlyOthersLeft(entries: seq<Entry>)
    ensures Unlisted(entries, FILTER_KEYS) == Others(entries)
  {
    forall e | e in entries && e.key.Own? ensures e.key.key in FILTER_KEYS {
      KeyListed(e.key.key);
    }
    FilterCongruent(entries, (e: Entry) => e.key.Other? || e.key.key !in FILTER_KEYS, (e: Entry) => e.key.Other?);
  }

  /** Behind other parameters stand the values of `keys`, in order, and no more. */
  ghost predicate Reached(entries: seq<Entry>, base: seq<Entry>, w: Lookup, keys: seq<FilterKey>) {
    (forall e :: e in base ==> e.key.Other?) && entries == base + Encoded(keys, w)
  }

  method SetParam(params: SearchParams, key: FilterKey, value: string,
                  ghost base: seq<Entry>, ghost w: Lookup, ghost keys: seq<FilterKey>)
    requires Reached(params.entries, base, w, keys) && key !in keys && w(key) == [value]
    modifies params
    ensures Reached(params.entries, base, w, keys + [key])
  {
    EncodedKeys(keys, w);
    ReplacedAppends(params.entries, Own(key), value);
    params.Set(Own(key), value);
    EncodedStep(keys, key, w);
    assert Tagged(Own(key), [value]) == [Entry(Own(key), value)];
  }

  /** Appends a list value by value. */
  method AppendAll(params: SearchParams, key: FilterKey, values: seq<string>,
                   ghost base: seq<Entry>, ghost w: Lookup, ghost keys: seq<FilterKey>)
    requires Reached(params.entries, base, w, keys) && w(key) == values
    modifies params
    ensures Reached(params.entries, base, w, keys + [key])
  {
    ghost var before := params.entries;
    assert before + Tagged(Own(key), values[..0]) == before;
    for i := 0 to |values|
      invariant params.entries == before + Tagged(Own(key), values[..i])
    {
      params.Append(Own(key), values[i]);
      TaggedStep(before, Own(key), values, i);
    }
    assert values[..|values|] == values;
    EncodedStep(keys, key, w);
    assert before + Tagged(Own(key), values) == base + (Encoded(keys, w) + Tagged(Own(key), values));
  }

  lemma TaggedStep(entries: seq<Entry>, key: ParamKey, values: seq<string>, i: nat)
    requires i < |values|
    ensures entries + Tagged(key, values[..i]) + [Entry(key, values[i])] == entries + Tagged(key, values[..i + 1])
  {
    assert values[..i + 1] == values[..i] + [values[i]];
    MapAppend(values[..i], [values[i]], (v: string) => Entry(key, v));
    assert Tagged(key, [values[i]]) == [Entry(key, values[i])];
  }

  lemma NothingWritten(entries: seq<Entry>, key: FilterKey, base: seq<Entry>, w: Lookup, keys: seq<FilterKey>)
    requires Reached(entries, base, w, keys) && w(key) == []
    ensures Reached(entries, base, w, keys + [key])
  {
    EncodedStep(keys, key, w);
    assert Encoded(keys, w) + [] == Encoded(keys, w);
  }

  // ------------------------------------------------------------------- reading

  function LookupOf(entries: seq<Entry>): Lookup {
    k => ValuesOf(entries, Own(k))
  }

  function Head(values: seq<string>): Option<string> {
    if values == [] then None else Some(values[0])
  }

  predicate Affirmative(s: string) {
    s == "1" || s == "true" || s == "yes" || s == "on"
  }

  function Selected<N>(host: Host<N>, values: seq<string>): bool {
    values != [] && Affirmative(host.lower(Trim(values[0])))
  }

  function NumberOf<N>(host: Host<N>, values: seq<string>): Option<N> {
    if values == [] || Blank(values[0]) then None else host.parse(values[0])
  }

  /** How the values under one key are read as a number or as a flag. */
  datatype Reader<!N> = Reader(number: seq<string> -> Option<N>, flag: seq<string> -> bool)

  function ReaderOf<N>(host: Host<N>): Reader<N> {
    Reader(values => NumberOf(host, values), values => Selected(host, values))
  }

  function RawWith<N>(reader: Reader<N>, v: Lookup, skills: seq<string>): RawFilters<N> {
    RawFilters(
      Head(v(StatusKey)), Head(v(FitKey)), Some(skills),
      reader.number(v(SalaryMinKey)), reader.number(v(SalaryMaxKey)),
      reader.number(v(HourlyMinKey)), reader.number(v(HourlyMaxKey)),
      Some(Head(v(IncludeMissingCompKey)) != Some("false")),
      reader.number(v(PostedWithinDaysKey)),
      Some(reader.flag(v(ExcludeExpiredKey))), Some(reader.flag(v(ExcludeStaleKey))),
      Head(v(FreshnessKey)),
      Some(v(EmploymentTypeKey)), None, Some(v(WorkModeKey)), None, Some(v(EligibilityBucketKey)),
      Head(v(SeniorityKey)),
      Some(reader.flag(v(RelocationOnlyKey))), Some(reader.flag(v(VisaOnlyKey))),
      Some(reader.flag(v(FounderOnlyKey))), Some(reader.flag(v(GreenfieldOnlyKey))),
      Some(reader.flag(v(FreshOnlyKey))),
      reader.number(v(MinRatingKey)), reader.number(v(MinScoreKey)), reader.number(v(MaxScoreKey)),
      Head(v(SortKey)), Head(v(SortDirectionKey)))
  }

  function RawFromLookup<N>(host: Host<N>, v: Lookup): RawFilters<N> {
    RawWith(ReaderOf(host), v, CanonicalSkills(v(SkillKey), host.lower))
  }

  function FiltersFromParams<N>(host: Host<N>, entries: seq<Entry>): Filters<N> {
    Normalize(RawFromLookup(host, LookupOf(entries)))
  }

  /** The skills a list is read back as, after its entries are joined by newlines. */
  function CanonicalSkills(skills: seq<string>, lower: string -> string): seq<string> {
    ParseSkills(Join(skills, "\n"), lower)
  }

  function WithCanonicalSkills<N>(host: Host<N>, f: Filters<N>): Filters<N> {
    f.(skills := CanonicalSkills(f.skills, host.lower))
  }

  // ---------------------------------------------------------- normal states

  lemma {:induction false} BucketsFixed(buckets: seq<string>)
    requires forall b :: b in buckets ==> b in BUCKET_VALUES
    ensures NormalBuckets(buckets) == buckets
  {
    if buckets == [] {
    } else {
      BucketsFixed(buckets[1..]);
      BucketFixed(buckets[0]);
      assert [buckets[0]] + buckets[1..] == buckets;
    }
  }

  lemma BucketFixed(bucket: string)
    requires bucket in BUCKET_VALUES
    ensures NormalBucket(bucket) == Some(bucket)
  {
    assert "eligible"[0] == 'e' && "sponsorship_possible"[0] == 's' && "location_restriction"[0] == 'l';
    assert "unknown"[1] == 'n' && |"conflicting"| == 11;
    assert "canada_eligible"[0] == 'c' && |"canada_eligible"| == 15;
    assert "us_residence_required"[1] == 's' && "incompatible"[0] == 'i';
  }

  lemma BucketsSelectable(buckets: seq<string>)
    requires forall b :: b in buckets ==> b in BUCKET_VALUES
    ensures Filter(buckets, Selectable) == buckets
  {
    assert 'e' in "eligible" && !IsSpace('e');
    forall b | b in buckets ensures Selectable(b) {
      assert !IsSpace(b[0]);
    }
    FilterAll(buckets, Selectable);
  }

  /** What the normaliser leaves alone. */
  ghost predicate Normal<N>(f: Filters<N>) {
    && f.status != "" && f.freshness != "" && f.seniority != ""
    && f.fit in FIT_VALUES && f.sort in SORT_VALUES && f.sortDirection in DIRECTION_VALUES
    && (forall e :: e in f.employmentTypes ==> Selectable(e))
    && (forall e :: e in f.workModes ==> Selectable(e))
    && (forall b :: b in f.eligibilityBuckets ==> b in BUCKET_VALUES)
  }

  lemma NormalizeIsNormal<N>(raw: RawFilters<N>)
    ensures Normal(Normalize(raw))
  {
  }

  lemma NormalFixed<N>(f: Filters<N>)
    requires Normal(f)
    ensures Normalize(AsRaw(f)) == f
  {
    FilterAll(f.employmentTypes, Selectable);
    FilterAll(f.workModes, Selectable);
    BucketsSelectable(f.eligibilityBuckets);
    BucketsFixed(f.eligibilityBuckets);
  }

  /** Normalising twice changes nothing more. */
  lemma NormalizeIdempotent<N>(raw: RawFilters<N>)
    ensures Normalize(AsRaw(Normalize(raw))) == Normalize(raw)
  {
    NormalizeIsNormal(raw);
    NormalFixed(Normalize(raw));
  }

  // ------------------------------------------------------------- the round trip

  lemma NumberReadsBack<N(!new)>(host: Host<N>, values: seq<string>, value: Option<N>)
    requires Lawful(host) && values == Number(host, value)
    ensures NumberOf(host, values) == value
  {
  }

  lemma FlagReadsBack<N(!new)>(host: Host<N>, values: seq<string>, value: bool)
    requires Lawful(host) && values == Flag(value)
    ensures Selected(host, values) == value
  {
    hide TrimStart;
    hide TrimEnd;
    TrimWord("true");
  }

  lemma TextReadsBack(values: seq<string>, value: string, standard: string)
    requires value != "" && values == Unless(value, standard)
    ensures StringOr(Head(values), standard) == value
  {
  }

  lemma ChoiceReadsBack(values: seq<string>, value: string, standard: string, allowed: set<string>)
    requires value in allowed && values == Unless(value, standard)
    ensures OneOf(Head(values), allowed, standard) == value
  {
  }

  lemma ListsReadBack<N>(f: Filters<N>)
    requires Normal(f)
    ensures StringArrayOr(Some(f.employmentTypes), None) == f.employmentTypes
    ensures StringArrayOr(Some(f.workModes), None) == f.workModes
    ensures NormalBuckets(StringArrayOr(Some(f.eligibilityBuckets), None)) == f.eligibilityBuckets
  {
    FilterAll(f.employmentTypes, Selectable);
    FilterAll(f.workModes, Selectable);
    BucketsSelectable(f.eligibilityBuckets);
    BucketsFixed(f.eligibilityBuckets);
  }

  lemma SameLookup<N>(host: Host<N>, v: Lookup, w: Lookup)
    requires forall k :: v(k) == w(k)
    ensures RawFromLookup(host, v) == RawFromLookup(host, w)
  {
  }

  ghost predicate ReadsWritten<N(!new)>(reader: Reader<N>, host: Host<N>) {
    && (forall value: Option<N> :: reader.number(Number(host, value)) == value)
    && (forall value :: reader.flag(Flag(value)) == value)
  }

  lemma ReaderReadsWritten<N(!new)>(host: Host<N>)
    requires Lawful(host)
    ensures ReadsWritten(ReaderOf(host), host)
  {
    forall value: Option<N> ensures ReaderOf(host).number(Number(host, value)) == value {
      NumberReadsBack(host, Number(host, value), value);
    }
    forall value ensures ReaderOf(host).flag(Flag(value)) == value {
      FlagReadsBack(host, Flag(value), value);
    }
  }

  /** The raw state found in a query string to which `f` was written: defaults are missing. */
  function Stored<N>(f: Filters<N>, skills: seq<string>): RawFilters<N> {
    AsRaw(f).(
      status := Head(Unless(f.status, "all")), fit := Head(Unless(f.fit, "all")), skills := Some(skills),
      freshness := Head(Unless(f.freshness, "all")), seniority := Head(Unless(f.seniority, "all")),
      sort := Head(Unless(f.sort, "best")), sortDirection := Head(Unless(f.sortDirection, "desc")))
  }

  lemma WordsStored<N>(host: Host<N>, f: Filters<N>)
    ensures Written(host, f, StatusKey) == Unless(f.status, "all")
    ensures Written(host, f, FitKey) == Unless(f.fit, "all")
    ensures Written(host, f, FreshnessKey) == Unless(f.freshness, "all")
    ensures Written(host, f, SeniorityKey) == Unless(f.seniority, "all")
    ensures Written(host, f, SortKey) == Unless(f.sort, "best")
    ensures Written(host, f, SortDirectionKey) == Unless(f.sortDirection, "desc")
  {
  }

  lemma NumbersStored<N>(host: Host<N>, f: Filters<N>)
    ensures Written(host, f, SalaryMinKey) == Number(host, f.salaryMin)
    ensures Written(host, f, SalaryMaxKey) == Number(host, f.salaryMax)
    ensures Written(host, f, HourlyMinKey) == Number(host, f.hourlyMin)
    ensures Written(host, f, HourlyMaxKey) == Number(host, f.hourlyMax)
    ensures Written(host, f, PostedWithinDaysKey) == Number(host, f.postedWithinDays)
    ensures Written(host, f, MinRatingKey) == Number(host, f.minRating)
    ensures Written(host, f, MinScoreKey) == Number(host, f.minScore)
    ensures Written(host, f, MaxScoreKey) == Number(host, f.maxScore)
  {
    hide Number;
    hide Unless;
    hide Flag;
  }

  lemma FlagsStored<N>(host: Host<N>, f: Filters<N>)
    ensures Written(host, f, ExcludeExpiredKey) == Flag(f.excludeExpired)
    ensures Written(host, f, ExcludeStaleKey) == Flag(f.excludeStale)
    ensures Written(host, f, RelocationOnlyKey) == Flag(f.relocationOnly)
    ensures Written(host, f, VisaOnlyKey) == Flag(f.visaOnly)
    ensures Written(host, f, FounderOnlyKey) == Flag(f.founderOnly)
    ensures Written(host, f, GreenfieldOnlyKey) == Flag(f.greenfieldOnly)
    ensures Written(host, f, FreshOnlyKey) == Flag(f.freshOnly)
    ensures Head(Written(host, f, IncludeMissingCompKey)) != Some("false") <==> f.includeMissingComp
  {
  }

  lemma ListsStored<N>(host: Host<N>, f: Filters<N>)
    ensures Written(host, f, SkillKey) == f.skills
    ensures Written(host, f, EmploymentTypeKey) == f.employmentTypes
    ensures Written(host, f, WorkModeKey) == f.workModes
    ensures Written(host, f, EligibilityBucketKey) == f.eligibilityBuckets
  {
  }

  lemma StoredIsRead<N(!new)>(reader: Reader<N>, host: Host<N>, f: Filters<N>, skills: seq<string>)
    requires ReadsWritten(reader, host)
    ensures RawWith(reader, (k: FilterKey) => Written(host, f, k), skills) == Stored(f, skills)
  {
    hide Written;
    WordsStored(host, f);
    NumbersStored(host, f);
    FlagsStored(host, f);
    ListsStored(host, f);
  }

  lemma StoredNormalizes<N>(f: Filters<N>, skills: seq<string>)
    requires Normal(f)
    ensures Normalize(Stored(f, skills)) == f.(skills := skills)
  {
    ListsReadBack(f);
    TextReadsBack(Unless(f.status, "all"), f.status, "all");
    TextReadsBack(Unless(f.freshness, "all"), f.freshness, "all");
    TextReadsBack(Unless(f.seniority, "all"), f.seniority, "all");
    ChoiceReadsBack(Unless(f.fit, "all"), f.fit, "all", FIT_VALUES);
    ChoiceReadsBack(Unless(f.sort, "best"), f.sort, "best", SORT_VALUES);
    ChoiceReadsBack(Unless(f.sortDirection, "desc"), f.sortDirection, "desc", DIRECTION_VALUES);
  }

  /** Reading what a normal state wrote gives that state, with its skills in canonical form. */
  lemma ReadsBack<N(!new)>(host: Host<N>, f: Filters<N>)
    requires Lawful(host) && Normal(f)
    ensures Normalize(RawFromLookup(host, (k: FilterKey) => Written(host, f, k))) == WithCanonicalSkills(host, f)
  {
    hide Written;
    hide ParseSkills;
    hide Join;
    ListsStored(host, f);
    ReaderReadsWritten(host);
    StoredIsRead(ReaderOf(host), host, f, CanonicalSkills(f.skills, host.lower));
    StoredNormalizes(f, CanonicalSkills(f.skills, host.lower));
  }

  predicate IsListKey(key: FilterKey) {
    key in {SkillKey, EmploymentTypeKey, WorkModeKey, EligibilityBucketKey}
  }

  lemma SingleValue<N>(host: Host<N>, f: Filters<N>, key: FilterKey)
    requires !IsListKey(key)
    ensures |Written(host, f, key)| <= 1
  {
  }

  /** Writes one key: lists value by value, anything else by setting it unless it is the default. */
  method WriteKey<N>(params: SearchParams, host: Host<N>, f: Filters<N>, key: FilterKey,
                     ghost base: seq<Entry>, ghost w: Lookup, ghost keys: seq<FilterKey>)
    requires Reached(params.entries, base, w, keys) && key !in keys && w(key) == Written(host, f, key)
    modifies params
    ensures Reached(params.entries, base, w, keys + [key])
  {
    var values := Written(host, f, key);
    if IsListKey(key) {
      AppendAll(params, key, values, base, w, keys);
    } else if values != [] {
      SingleValue(host, f, key);
      SetParam(params, key, values[0], base, w, keys);
    } else {
      NothingWritten(params.entries, key, base, w, keys);
    }
  }

  /** The query a state is written to: the other parameters in front, then what the normalised state writes. */
  function Query<N>(entries: seq<Entry>, host: Host<N>, filters: RawFilters<N>): seq<Entry> {
    var f := Normalize(filters);
    Others(entries) + Encoded(FILTER_KEYS, k => Written(host, f, k))
  }

  /**
   Replaces the filter's parameters by those of the normalised state, key by key: all other parameters stay as
   they are, in front, and earlier filter parameters leave no trace.
   */
  method WriteFilterState<N>(params: SearchParams, host: Host<N>, filters: RawFilters<N>)
    modifies params
    ensures params.entries == Query(old(params.entries), host, filters)
  {
    var f := Normalize(filters);
    ghost var base, w := Others(params.entries), (k: FilterKey) => Written(host, f, k);
    Clear(params);
    assert Reached(params.entries, base, w, FILTER_KEYS[..0]);
    for i := 0 to |FILTER_KEYS|
      invariant Reached(params.entries, base, w, FILTER_KEYS[..i])
    {
      NextKey(i);
      WriteKey(params, host, f, FILTER_KEYS[i], base, w, FILTER_KEYS[..i]);
    }
    assert FILTER_KEYS[..|FILTER_KEYS|] == FILTER_KEYS;
  }

  lemma NextKey(i: nat)
    requires i < |FILTER_KEYS|
    ensures FILTER_KEYS[i] !in FILTER_KEYS[..i]
    ensures FILTER_KEYS[..i] + [FILTER_KEYS[i]] == FILTER_KEYS[..i + 1]
  {
    KeysDistinct();
  }

  lemma EncodedReadsBack(base: seq<Entry>, w: Lookup, k: FilterKey)
    requires forall e :: e in base ==> e.key.Other?
    ensures LookupOf(base + Encoded(FILTER_KEYS, w))(k) == w(k)
    ensures Others(base + Encoded(FILTER_KEYS, w)) == base
  {
    KeysDistinct();
    KeyListed(k);
    EncodedValues(FILTER_KEYS, w, k);
    ValuesAppend(base, Encoded(FILTER_KEYS, w), Own(k));
    FilterNone(base, (e: Entry) => e.key == Own(k));
    FilterAll(base, (e: Entry) => e.key.Other?);
  }

  /**
   The URL round trip: reading any query string to which a state was written gives the normalised state with
   its skills in canonical form.
   */
  lemma RoundTrip<N(!new)>(entries: seq<Entry>, host: Host<N>, filters: RawFilters<N>)
    requires Lawful(host)
    ensures var written := Query(entries, host, filters);
            && FiltersFromParams(host, written) == WithCanonicalSkills(host, Normalize(filters))
            && Others(written) == Others(entries)
  {
    var f := Normalize(filters);
    var w := (k: FilterKey) => Written(host, f, k);
    var written := Query(entries, host, filters);
    assert written == Others(entries) + Encoded(FILTER_KEYS, w);
    var v := LookupOf(written);
    forall k ensures v(k) == w(k) && Others(written) == Others(entries) {
      EncodedReadsBack(Others(entries), w, k);
    }
    SameLookup(host, v, w);
    NormalizeIsNormal(filters);
    ReadsBack(host, f);
  }

  // ------------------------------------------------------- canonical skills

  /** Trimmed, non-empty, free of separators, and distinct up to letter case. */
  ghost predicate IsCanonical(skills: seq<string>, lower: string -> string) {
    && (forall i :: 0 <= i < |skills| ==> skills[i] != "" && Trim(skills[i]) == skills[i])
    && (forall i, k :: 0 <= i < |skills| && 0 <= k < |skills[i]| ==> !SkillSeparator(skills[i][k]))
    && DistinctKeys(skills, lower)
  }

  lemma TrimKeepsCharacters(s: string, cut: char -> bool)
    requires forall k :: 0 <= k < |s| ==> !cut(s[k])
    ensures forall k :: 0 <= k < |Trim(s)| ==> !cut(Trim(s)[k])
  {
    var t := TrimStart(s);
    forall k | 0 <= k < |Trim(s)| ensures !cut(Trim(s)[k]) {
      assert Trim(s)[k] == t[k] == s[|s| - |t| + k];
    }
  }

  lemma PartIsClean(value: string, x: string)
    requires x in SkillParts(value)
    ensures x != "" && Trim(x) == x && forall k :: 0 <= k < |x| ==> !SkillSeparator(x[k])
  {
    var parts := Split(value, SkillSeparator);
    var j := OriginOf(parts, Trim, NonEmpty, x);
    TrimIdempotent(parts[j]);
    TrimKeepsCharacters(parts[j], SkillSeparator);
  }

  /** Every parsed list is canonical. */
  lemma ParsedIsCanonical(value: string, lower: string -> string)
    ensures IsCanonical(ParseSkills(value, lower), lower)
  {
    hide Trim;
    hide SkillParts;
    hide FirstByKey;
    hide DistinctKeys;
    hide SkillSeparator;
    var r := ParseSkills(value, lower);
    FirstByKeyMeaning(SkillParts(value), lower);
    forall i | 0 <= i < |r|
      ensures r[i] != "" && Trim(r[i]) == r[i] && forall k :: 0 <= k < |r[i]| ==> !SkillSeparator(r[i][k])
    {
      assert r[i] in r;
      PartIsClean(value, r[i]);
    }
  }

  lemma {:induction false} TrimmedListFixed(skills: seq<string>)
    requires forall i :: 0 <= i < |skills| ==> skills[i] != "" && Trim(skills[i]) == skills[i]
    ensures Filter(Map(skills, Trim), NonEmpty) == skills
  {
    hide Trim;
    assert Map(skills, Trim) == skills;
    forall x | x in skills ensures NonEmpty(x) {
      var i :| 0 <= i < |skills| && skills[i] == x;
    }
    FilterAll(skills, NonEmpty);
  }

  lemma CanonicalFixed(skills: seq<string>, lower: string -> string)
    requires IsCanonical(skills, lower)
    ensures CanonicalSkills(skills, lower) == skills
  {
    hide Trim;
    hide Split;
    hide FirstByKey;
    TrimmedListFixed(skills);
    FirstByKeyFixed(skills, lower);
    if skills == [] {
      NoSkills(lower);
    } else {
      assert ['\n'] == "\n";
      SplitJoin(skills, '\n', SkillSeparator);
    }
  }

  lemma NoSkills(lower: string -> string)
    ensures ParseSkills("", lower) == []
  {
    hide Trim;
    TrimBlank("");
    var parts := Split("", SkillSeparator);
    assert parts == [""];
    assert Map(parts, Trim) == [""];
    FilterNone(Map(parts, Trim), NonEmpty);
    assert SkillParts("") == [];
  }

  /** A list is read back exactly as it was written precisely when it is canonical. */
  lemma CanonicalIff(skills: seq<string>, lower: string -> string)
    ensures CanonicalSkills(skills, lower) == skills <==> IsCanonical(skills, lower)
  {
    hide IsCanonical;
    hide ParseSkills;
    ParsedIsCanonical(Join(skills, "\n"), lower);
    if IsCanonical(skills, lower) {
      CanonicalFixed(skills, lower);
    }
  }

  lemma CanonicalIsFixed<N>(host: Host<N>, f: Filters<N>)
    requires Normal(f)
    ensures var g := WithCanonicalSkills(host, f);
            Normalize(AsRaw(g)) == g && WithCanonicalSkills(host, g) == g
  {
    hide CanonicalSkills;
    hide IsCanonical;
    var g := WithCanonicalSkills(host, f);
    NormalFixed(g);
    CanonicalFixedPoint(f.skills, host.lower);
  }

  lemma CanonicalFixedPoint(skills: seq<string>, lower: string -> string)
    ensures CanonicalSkills(CanonicalSkills(skills, lower), lower) == CanonicalSkills(skills, lower)
  {
    hide IsCanonical;
    hide ParseSkills;
    ParsedIsCanonical(Join(skills, "\n"), lower);
    CanonicalFixed(CanonicalSkills(skills, lower), lower);
  }

  /** What was read from a query, written to it and read again, is the same: one trip reaches a fixed point. */
  lemma RoundTripStable<N(!new)>(entries: seq<Entry>, host: Host<N>, filters: RawFilters<N>)
    requires Lawful(host)
    ensures var first := Query(entries, host, filters);
            var second := Query(first, host, AsRaw(FiltersFromParams(host, first)));
            FiltersFromParams(host, second) == FiltersFromParams(host, first) && Others(second) == Others(entries)
  {
    hide Query;
    hide FiltersFromParams;
    hide Normalize;
    hide WithCanonicalSkills;
    hide Lawful;
    var first := Query(entries, host, filters);
    var g := FiltersFromParams(host, first);
    NormalizeIsNormal(filters);
    RoundTrip(entries, host, filters);
    CanonicalIsFixed(host, Normalize(filters));
    RoundTrip(first, host, AsRaw(g));
  }
}
