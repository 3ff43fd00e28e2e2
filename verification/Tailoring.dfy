/** Tailoring a resume to a configuration: filters, ordering, caps and compaction. */
module Tailoring {
  import opened Sequences
  import opened JsText
  import S = StableSort

  /** `ref` stands for object identity: two achievements of one resume are different objects. */
  datatype Achievement = Achievement(ref: nat, title: string, body: string, tags: seq<string>)
  datatype Duty = Duty(body: string)
  datatype Project = Project(id: string, name: string, duties: Option<seq<Duty>>, achievements: seq<Achievement>)
  datatype Position = Position(
    id: string, role: string, company: string, start: string, end: string, blurb: Option<string>,
    duties: Option<seq<Duty>>, projects: Option<seq<Project>>, tags: Option<seq<string>>,
    achievements: seq<Achievement>)
  datatype OtherRole = OtherRole(
    role: string, company: string, period: string, body: Option<string>, tags: Option<seq<string>>)
  datatype Education = Education(title: string, detail: string)
  datatype Experience = Experience(positions: seq<Position>, other: seq<OtherRole>, education: seq<Education>)
  datatype Profile = Profile(name: string, title: string, summary: string)
  datatype Skill = Skill(id: string, caption: string)
  datatype SkillCategory = SkillCategory(id: string, caption: string, skills: seq<Skill>)
  datatype Resume = Resume(profile: Profile, experience: Experience, groups: seq<SkillCategory>)

  datatype Config = Config(
    title: Option<string>, summary: Option<string>,
    includePositionIds: Option<seq<string>>, excludePositionIds: Option<seq<string>>,
    includeExperienceIds: Option<seq<string>>, excludeExperienceIds: Option<seq<string>>,
    compactExperienceIds: Option<seq<string>>,
    includeProjectIds: Option<seq<string>>, excludeProjectIds: Option<seq<string>>,
    includeOtherCompanies: Option<seq<string>>, excludeOtherCompanies: Option<seq<string>>,
    includeEducationTitles: Option<seq<string>>, excludeEducationTitles: Option<seq<string>>,
    hideOtherExperience: bool, includeDuties: Option<bool>,
    includeSkillGroupIds: Option<seq<string>>, excludeSkillIds: Option<seq<string>>,
    emphasizeTags: Option<seq<string>>, excludeTags: Option<seq<string>>,
    maxAchievementsPerPosition: Option<int>, maxAchievementsPerProject: Option<int>,
    maxOtherRoles: Option<int>, maxProjectsPerPosition: Option<int>,
    pinnedAchievementTitles: map<string, seq<string>>, droppedAchievementTitles: map<string, seq<string>>)

  // ----------------------------------------------------------------- helpers

  function SetOf(values: Option<seq<string>>): set<string> {
    if values.Some? then Elements(values.value) else {}
  }

  predicate HasAnyTag(tags: seq<string>, candidates: set<string>) {
    exists t :: t in tags && t in candidates
  }

  predicate HasAnyOptionalTag(tags: Option<seq<string>>, candidates: set<string>) {
    tags.Some? && HasAnyTag(tags.value, candidates)
  }

  /** Array.prototype.slice(0, n), which counts a negative end from the back. */
  function JsTake<T>(s: seq<T>, n: int): seq<T> {
    if n >= 0 then Take(s, n) else Take(s, if |s| + n > 0 then |s| + n else 0)
  }

  /** A cap of 0 is falsy and means no cap, as a missing one does. */
  function Capped<T>(s: seq<T>, cap: Option<int>): seq<T> {
    if cap.None? || cap.value == 0 then s else JsTake(s, cap.value)
  }

  // ------------------------------------------------------------ achievements

  function TitlesForIds(values: map<string, seq<string>>, ids: seq<string>): set<string> {
    set id, title | id in ids && id in values && title in values[id] :: title
  }

  datatype Rules = Rules(pinned: set<string>, dropped: set<string>, emphasized: set<string>, excluded: set<string>)

  function RulesFor(config: Config, ids: seq<string>): Rules {
    Rules(
      TitlesForIds(config.pinnedAchievementTitles, ids), TitlesForIds(config.droppedAchievementTitles, ids),
      SetOf(config.emphasizeTags), SetOf(config.excludeTags))
  }

  predicate IsPinned(a: Achievement, rules: Rules) {
    a.title in rules.pinned
  }

  predicate IsRetained(a: Achievement, rules: Rules) {
    && a.title !in rules.dropped
    && (IsPinned(a, rules) || !HasAnyTag(a.tags, rules.excluded))
  }

  function Indicator(b: bool): int {
    if b then 1 else 0
  }

  /** Pinned first, then emphasised. */
  function CompareAchievements(rules: Rules): S.Comparator<Achievement> {
    (a, b) =>
      var pinned := Indicator(IsPinned(b, rules)) - Indicator(IsPinned(a, rules));
      if pinned != 0 then pinned as real
      else (Indicator(HasAnyTag(b.tags, rules.emphasized)) - Indicator(HasAnyTag(a.tags, rules.emphasized))) as real
  }

  function AchievementRank(rules: Rules): Achievement -> nat {
    a => 2 * Indicator(IsPinned(a, rules)) + Indicator(HasAnyTag(a.tags, rules.emphasized))
  }

  function Ordered(achievements: seq<Achievement>, rules: Rules): seq<Achievement> {
    S.Sort(CompareAchievements(rules), Filter(achievements, a => IsRetained(a, rules)))
  }

  /**
   What tailoring achievements yields: retained ones, sorted, and cut off at the cap, or behind the last pinned
   one if those exceed it.
   */
  function Tailored(achievements: seq<Achievement>, rules: Rules, cap: Option<int>): seq<Achievement> {
    var ordered := Ordered(achievements, rules);
    var limited, pinned := |Capped(ordered, cap)|, Count(ordered, a => IsPinned(a, rules));
    Take(ordered, if limited < pinned then pinned else limited)
  }

  lemma AchievementRanks(rules: Rules)
    ensures S.RanksBelow(CompareAchievements(rules), AchievementRank(rules), 4)
  {
  }

  lemma OrderedSorted(achievements: seq<Achievement>, rules: Rules)
    ensures S.Sorted(CompareAchievements(rules), Ordered(achievements, rules))
  {
    var s := Filter(achievements, a => IsRetained(a, rules));
    AchievementRanks(rules);
    S.RankIsConsistent(CompareAchievements(rules), AchievementRank(rules), 4, Elements(s));
    S.SortSorts(CompareAchievements(rules), s, Elements(s));
  }

  /** A list that never has a passing element behind a failing one starts with exactly its passing elements. */
  lemma {:induction false} PassingFirst<T(!new)>(s: seq<T>, p: T -> bool)
    requires forall i, j :: 0 <= i < j < |s| && p(s[j]) ==> p(s[i])
    ensures Filter(s, p) == s[..Count(s, p)]
    ensures forall i :: 0 <= i < |s| ==> (p(s[i]) <==> i < Count(s, p))
  {
    if s == [] {
    } else {
      var rest := s[1..];
      PassingFirst(rest, p);
      if p(s[0]) {
        assert s[..Count(s, p)] == [s[0]] + rest[..Count(rest, p)];
      } else {
        forall x | x in s ensures !p(x) {
          var i :| 0 <= i < |s| && s[i] == x;
        }
        FilterNone(s, p);
      }
    }
  }

  lemma PinnedFirst(achievements: seq<Achievement>, rules: Rules)
    ensures var s := Ordered(achievements, rules);
            var n := Count(s, a => IsPinned(a, rules));
            && (forall i :: 0 <= i < |s| ==> (IsPinned(s[i], rules) <==> i < n))
            && Filter(s, a => IsPinned(a, rules)) == s[..n]
  {
    var s, pinned := Ordered(achievements, rules), a => IsPinned(a, rules);
    OrderedSorted(achievements, rules);
    forall i, j | 0 <= i < j < |s| && pinned(s[j]) ensures pinned(s[i]) {
      assert S.Leq(CompareAchievements(rules), s[i], s[j]);
    }
    PassingFirst(s, pinned);
  }

  /** Appends the passing elements that `limited`, the first `n` of `ordered`, does not hold yet. */
  method AppendPassing<T(==)>(ordered: seq<T>, n: nat, passes: T -> bool, ghost k: nat) returns (limited: seq<T>)
    requires Distinct(ordered) && n <= |ordered| && k <= |ordered|
    requires forall i :: 0 <= i < |ordered| ==> (passes(ordered[i]) <==> i < k)
    ensures limited == Take(ordered, if n < k then k else n)
  {
    hide Distinct;
    limited := Take(ordered, n);
    for i := 0 to |ordered|
      invariant limited == Take(ordered, Reach(n, k, i))
    {
      TakenIff(ordered, Reach(n, k, i), i);
      if ordered[i] in limited {
        continue;
      }
      if passes(ordered[i]) {
        limited := limited + [ordered[i]];
      }
    }
  }

  /** Keeps, sorts and caps, then appends the pinned achievements that the cap cut off. */
  method TailorAchievements(achievements: seq<Achievement>, ids: seq<string>, config: Config, cap: Option<int>)
    returns (limited: seq<Achievement>)
    requires Distinct(achievements)
    ensures limited == Tailored(achievements, RulesFor(config, ids), cap)
  {
    hide Ordered;
    hide RulesFor;
    var rules := RulesFor(config, ids);
    var ordered := Ordered(achievements, rules);
    PinnedFirst(achievements, rules);
    if cap.None? || cap.value == 0 {
      return ordered;
    }
    OrderedDistinct(achievements, rules);
    limited := AppendPassing(
      ordered, |JsTake(ordered, cap.value)|, a => IsPinned(a, rules), Count(ordered, a => IsPinned(a, rules)));
  }

  /** How far the limited list reaches once `i` elements were looked at. */
  function Reach(n: nat, k: nat, i: nat): nat {
    var passed := if i < k then i else k;
    if n < passed then passed else n
  }

  lemma TakenIff<T>(s: seq<T>, m: nat, i: nat)
    requires Distinct(s) && i < |s|
    ensures s[i] in Take(s, m) <==> i < m
    ensures m == i ==> Take(s, m) + [s[i]] == Take(s, m + 1)
  {
  }

  lemma OrderedDistinct(achievements: seq<Achievement>, rules: Rules)
    requires Distinct(achievements)
    ensures Distinct(Ordered(achievements, rules))
  {
    var retained := Filter(achievements, a => IsRetained(a, rules));
    FilterDistinct(achievements, a => IsRetained(a, rules));
    DistinctPermutation(retained, Ordered(achievements, rules));
  }

  // --------------------------------------------- what tailored achievements are

  predicate IsEmphasized(a: Achievement, rules: Rules) {
    HasAnyTag(a.tags, rules.emphasized)
  }

  function Group(kept: seq<Achievement>, rules: Rules, pinned: bool, emphasized: bool): seq<Achievement> {
    Filter(kept, a => IsPinned(a, rules) == pinned && IsEmphasized(a, rules) == emphasized)
  }

  /** Without a cap, tailoring is four filters of the retained list, one behind the other. */
  function Grouped(achievements: seq<Achievement>, rules: Rules): seq<Achievement> {
    var kept := Filter(achievements, a => IsRetained(a, rules));
    Group(kept, rules, true, true) + Group(kept, rules, true, false)
    + Group(kept, rules, false, true) + Group(kept, rules, false, false)
  }

  lemma {:induction false} GroupIsRank(kept: seq<Achievement>, rules: Rules, pinned: bool, emphasized: bool)
    ensures S.OfRank(kept, AchievementRank(rules), 2 * Indicator(pinned) + Indicator(emphasized)) ==
            Group(kept, rules, pinned, emphasized)
  {
    if kept == [] {
    } else {
      GroupIsRank(kept[1..], rules, pinned, emphasized);
      assert AchievementRank(rules)(kept[0]) == 2 * Indicator(pinned) + Indicator(emphasized) <==>
             IsPinned(kept[0], rules) == pinned && IsEmphasized(kept[0], rules) == emphasized;
    }
  }

  lemma FourBuckets<T>(s: seq<T>, rank: T -> nat)
    ensures S.Buckets(s, rank, 4) ==
            S.OfRank(s, rank, 3) + S.OfRank(s, rank, 2) + S.OfRank(s, rank, 1) + S.OfRank(s, rank, 0)
  {
    var a, b, c, d := S.OfRank(s, rank, 3), S.OfRank(s, rank, 2), S.OfRank(s, rank, 1), S.OfRank(s, rank, 0);
    assert S.Buckets(s, rank, 0) == [];
    assert S.Buckets(s, rank, 1) == d + [] == d;
    assert S.Buckets(s, rank, 2) == c + d;
    assert S.Buckets(s, rank, 3) == b + (c + d);
    assert S.Buckets(s, rank, 4) == a + (b + (c + d));
    assert a + (b + (c + d)) == a + b + c + d;
  }

  lemma OrderedIsGrouped(achievements: seq<Achievement>, rules: Rules)
    ensures Ordered(achievements, rules) == Grouped(achievements, rules)
  {
    hide S.OfRank;
    hide S.Buckets;
    hide Group;
    hide S.RanksBelow;
    var kept := Filter(achievements, a => IsRetained(a, rules));
    AchievementRanks(rules);
    S.SortIsBuckets(CompareAchievements(rules), kept, AchievementRank(rules), 4);
    FourBuckets(kept, AchievementRank(rules));
    GroupIsRank(kept, rules, true, true);
    GroupIsRank(kept, rules, true, false);
    GroupIsRank(kept, rules, false, true);
    GroupIsRank(kept, rules, false, false);
  }

  /**
   The tailored list starts the grouped list, contains every pinned title that is not dropped and no dropped one,
   and is longer than the cap allows only when more achievements than that are pinned.
   */
  lemma TailoredIs(achievements: seq<Achievement>, rules: Rules, cap: Option<int>)
    ensures var r, grouped := Tailored(achievements, rules, cap), Grouped(achievements, rules);
            && |r| <= |grouped| && r == grouped[..|r|]
            && (forall a :: a in r ==> a in achievements && a.title !in rules.dropped)
            && (forall a :: a in achievements && IsPinned(a, rules) && a.title !in rules.dropped ==> a in r)
            && (cap.None? || cap.value == 0 ==> r == grouped)
            && (cap.Some? && cap.value > 0 ==>
                  && (|r| > cap.value ==> |r| == Count(grouped, a => IsPinned(a, rules)))
                  && (|r| < cap.value ==> r == grouped))
  {
    hide Ordered;
    hide Grouped;
    OrderedIsGrouped(achievements, rules);
    PinnedFirst(achievements, rules);
    OrderedElements(achievements, rules);
    var s, r := Ordered(achievements, rules), Tailored(achievements, rules, cap);
    assert s[..|r|] == r;
    forall a | a in r ensures a in s {
      var i :| 0 <= i < |r| && r[i] == a;
      assert s[i] == a;
    }
    forall a | a in achievements && IsPinned(a, rules) && a.title !in rules.dropped ensures a in r {
      var i :| 0 <= i < |s| && s[i] == a;
      assert r[i] == a;
    }
  }

  lemma OrderedElements(achievements: seq<Achievement>, rules: Rules)
    ensures forall a :: a in Ordered(achievements, rules) <==> a in achievements && IsRetained(a, rules)
  {
    var kept := Filter(achievements, a => IsRetained(a, rules));
    forall a ensures a in Ordered(achievements, rules) <==> a in kept {
      S.SameElements(Ordered(achievements, rules), kept, a);
    }
  }
}
