/** What a tailored resume keeps of the original, and exactly when tailoring it again changes nothing. */
module ApplyTailoringTheorems {
  import opened Sequences
  import opened JsText
  import opened Tailoring
  import opened ApplyTailoring
  import S = StableSort

  // ------------------------------------------------------------------- lists

  predicate NotNegative(cap: Option<int>) {
    cap.None? || cap.value >= 0
  }

  /** A filter that drops something shortens the list. */
  lemma {:induction false} FilterFull<T>(s: seq<T>, p: T -> bool)
    ensures |Filter(s, p)| == |s| <==> forall x :: x in s ==> p(x)
    ensures Filter(s, p) == s <==> forall x :: x in s ==> p(x)
  {
    if s == [] {
    } else {
      FilterFull(s[1..], p);
      assert s == [s[0]] + s[1..];
    }
  }

  lemma {:induction false} FixedIff<T>(s: seq<T>, f: T -> T)
    ensures Map(s, f) == s <==> forall x :: x in s ==> f(x) == x
  {
    if forall x :: x in s ==> f(x) == x {
      assert forall i :: 0 <= i < |s| ==> s[i] in s;
    } else {
      var x :| x in s && f(x) != x;
      var i :| 0 <= i < |s| && s[i] == x;
      assert Map(s, f)[i] != s[i];
    }
  }

  // ------------------------------------------------------------- achievements

  function Pinned(achievements: seq<Achievement>, rules: Rules): nat {
    Count(Ordered(achievements, rules), a => IsPinned(a, rules))
  }

  /** No negative cap, or one that leaves only pinned achievements. */
  predicate AchievementsSettle(achievements: seq<Achievement>, rules: Rules, cap: Option<int>) {
    NotNegative(cap) || |Ordered(achievements, rules)| + cap.value <= Pinned(achievements, rules)
  }

  /** A prefix of the order that holds all pinned ones is in order, and holds as many pinned ones. */
  lemma PrefixOrdered(achievements: seq<Achievement>, rules: Rules, m: nat)
    requires Pinned(achievements, rules) <= m
    ensures var r := Take(Ordered(achievements, rules), m);
            Ordered(r, rules) == r && Pinned(r, rules) == Pinned(achievements, rules)
  {
    hide Ordered;
    hide IsRetained;
    hide CompareAchievements;
    var s := Ordered(achievements, rules);
    var r := Take(s, m);
    OrderedSorted(achievements, rules);
    OrderedElements(achievements, rules);
    forall a | a in r ensures IsRetained(a, rules) {
      var i :| 0 <= i < |r| && r[i] == a;
      assert s[i] in s;
    }
    OrderedFixed(r, rules);
    PinnedFirst(achievements, rules);
    PassingTaken(s, m, a => IsPinned(a, rules));
  }

  /** Cutting behind the passing elements at the front loses none of them. */
  lemma PassingTaken<T>(s: seq<T>, m: nat, p: T -> bool)
    requires Count(s, p) <= m && forall i :: 0 <= i < |s| && p(s[i]) ==> i < Count(s, p)
    ensures Count(Take(s, m), p) == Count(s, p)
  {
    var r := Take(s, m);
    var rest := s[|r|..];
    assert s == r + rest;
    FilterAppend(r, rest, p);
    forall x | x in rest ensures !p(x) {
      var i :| 0 <= i < |rest| && rest[i] == x;
      assert s[|r| + i] == x;
    }
    FilterNone(rest, p);
  }

  lemma OrderedFixed(r: seq<Achievement>, rules: Rules)
    requires S.Sorted(CompareAchievements(rules), r)
    requires forall a :: a in r ==> IsRetained(a, rules)
    ensures Ordered(r, rules) == r
  {
    FilterAll(r, a => IsRetained(a, rules));
    AchievementRanks(rules);
    S.RankIsConsistent(CompareAchievements(rules), AchievementRank(rules), 4, Elements(r));
    S.SortFixed(CompareAchievements(rules), r, Elements(r));
  }

  lemma TailoredTwiceIff(achievements: seq<Achievement>, rules: Rules, cap: Option<int>)
    ensures var once := Tailored(achievements, rules, cap);
            Tailored(once, rules, cap) == once <==> AchievementsSettle(achievements, rules, cap)
  {
    hide Ordered;
    var s := Ordered(achievements, rules);
    var limited, pinned := |Capped(s, cap)|, Pinned(achievements, rules);
    PrefixOrdered(achievements, rules, if limited < pinned then pinned else limited);
    assert pinned <= |s|;
  }

  // ------------------------------------------------------- projects, positions

  function ProjectCap(c: Config): Option<int> {
    Either(c.maxAchievementsPerProject, c.maxAchievementsPerPosition)
  }

  predicate ProjectSettles(project: Project, positionId: string, c: Config) {
    AchievementsSettle(project.achievements, RulesFor(c, [project.id, positionId]), ProjectCap(c))
  }

  predicate PositionSettles(p: Position, c: Config) {
    && AchievementsSettle(p.achievements, RulesFor(c, [p.id]), c.maxAchievementsPerPosition)
    && (NotNegative(c.maxProjectsPerPosition) || ChosenProjects(p, c) == [])
    && forall x :: x in ChosenProjects(p, c) ==> ProjectSettles(x, p.id, c)
  }

  lemma ProjectTwiceIff(project: Project, positionId: string, c: Config)
    ensures var once := TailorProject(project, positionId, c);
            TailorProject(once, positionId, c) == once <==> ProjectSettles(project, positionId, c)
  {
    hide Tailored;
    hide AchievementsSettle;
    hide RulesFor;
    var once := TailorProject(project, positionId, c);
    assert TailoredDuties(once.duties, c) == once.duties;
    TailoredTwiceIff(project.achievements, RulesFor(c, [project.id, positionId]), ProjectCap(c));
  }

  lemma {:induction false} FixedAgain<T, U>(s: seq<T>, f: T -> U, again: U -> U)
    ensures Map(Map(s, f), again) == Map(s, f) <==> forall x :: x in s ==> again(f(x)) == f(x)
  {
    FixedIff(Map(s, f), again);
    forall x | x in s ensures f(x) in Map(s, f) {
      var i :| 0 <= i < |s| && s[i] == x;
      assert Map(s, f)[i] == f(x);
    }
    forall y | y in Map(s, f) ensures exists x :: x in s && f(x) == y {
      var i :| 0 <= i < |s| && Map(s, f)[i] == y;
      assert s[i] in s && f(s[i]) == y;
    }
  }

  /** Choosing among the already chosen and tailored projects only applies the cap again. */
  lemma ChosenAgain(p: Position, c: Config)
    ensures var chosen := Map(ChosenProjects(p, c), x => TailorProject(x, p.id, c));
            ChosenProjects(TailorPosition(p, c), c) == Capped(chosen, c.maxProjectsPerPosition)
  {
    hide Tailored;
    hide RulesFor;
    var allowed := Filter(if p.projects.Some? then p.projects.value else [], x => ProjectIncluded(x, c));
    var first := ChosenProjects(p, c);
    var chosen := Map(first, x => TailorProject(x, p.id, c));
    forall y | y in chosen ensures ProjectIncluded(y, c) {
      var i :| 0 <= i < |chosen| && chosen[i] == y;
      assert first[i] == allowed[i] && allowed[i] in allowed;
    }
    FilterAll(chosen, x => ProjectIncluded(x, c));
  }

  lemma PositionTwiceIff(p: Position, c: Config)
    ensures var once := TailorPosition(p, c);
            TailorPosition(once, c) == once <==> PositionSettles(p, c)
  {
    hide Tailored;
    hide AchievementsSettle;
    hide RulesFor;
    hide TailorProject;
    hide ChosenProjects;
    hide ProjectSettles;
    var once, first, cap := TailorPosition(p, c), ChosenProjects(p, c), c.maxProjectsPerPosition;
    var tailor := x => TailorProject(x, p.id, c);
    var chosen := Map(first, tailor);
    TailoredTwiceIff(p.achievements, RulesFor(c, [p.id]), c.maxAchievementsPerPosition);
    ChosenAgain(p, c);
    ChosenLength(p, c);
    CappedAgainIff(chosen, cap);
    FixedAgain(first, tailor, tailor);
    forall x | x in first ensures tailor(tailor(x)) == tailor(x) <==> ProjectSettles(x, p.id, c) {
      ProjectTwiceIff(x, p.id, c);
    }
    assert |Map(Capped(chosen, cap), tailor)| == |Capped(chosen, cap)|;
    assert once.projects == Some(chosen);
  }

  lemma ChosenLength(p: Position, c: Config)
    ensures var cap := c.maxProjectsPerPosition;
            cap.Some? && cap.value > 0 ==> |ChosenProjects(p, c)| <= cap.value
  {
  }

  lemma CappedAgainIff<T>(s: seq<T>, cap: Option<int>)
    requires cap.Some? && cap.value > 0 ==> |s| <= cap.value
    ensures |Capped(s, cap)| <= |s|
    ensures |Capped(s, cap)| == |s| <==> NotNegative(cap) || s == []
    ensures |Capped(s, cap)| == |s| ==> Capped(s, cap) == s
  {
  }

  /** Positions come out the same again exactly when each one that is shown settles. */
  lemma PositionsTwiceIff(positions: seq<Position>, c: Config)
    ensures var once := TailoredPositions(positions, c);
            && KeptPositions(once, c) == once
            && CompactedRoles(once, c) == []
            && (TailoredPositions(once, c) == once <==>
                forall p :: p in KeptPositions(positions, c) && Renderable(TailorPosition(p, c)) ==>
                  PositionSettles(p, c))
  {
    hide PositionSettles;
    hide Renderable;
    hide TailorPosition;
    var kept, tailor := KeptPositions(positions, c), p => TailorPosition(p, c);
    var once := TailoredPositions(positions, c);
    forall p | p in once ensures IsIncluded(p, c) && !IsCompact(p, c) && Renderable(p) {
      var i := OriginOf(kept, tailor, Renderable, p);
      KeepsId(kept[i], c);
      assert kept[i] in kept;
    }
    FilterAll(once, p => IsIncluded(p, c));
    FilterAll(once, p => !IsCompact(p, c));
    FilterNone(once, p => IsCompact(p, c));
    FixedIff(once, tailor);
    FilterFixed(once, tailor, Renderable);
    forall p | p in kept && Renderable(tailor(p)) ensures tailor(p) in once {
      var i :| 0 <= i < |kept| && kept[i] == p;
      assert Map(kept, tailor)[i] == tailor(p);
    }
    forall p | p in once ensures exists q :: q in kept && Renderable(tailor(q)) && tailor(q) == p {
      var i := OriginOf(kept, tailor, Renderable, p);
      assert kept[i] in kept;
    }
    forall p | p in kept ensures tailor(tailor(p)) == tailor(p) <==> PositionSettles(p, c) {
      PositionTwiceIff(p, c);
    }
  }

  lemma KeepsId(p: Position, c: Config)
    ensures TailorPosition(p, c).id == p.id
  {
    hide Tailored;
    hide RulesFor;
  }

  /** If all elements pass, mapping and filtering changes nothing exactly when mapping does. */
  lemma FilterFixed<T>(s: seq<T>, f: T -> T, p: T -> bool)
    requires forall x :: x in s ==> p(x)
    ensures Filter(Map(s, f), p) == s <==> Map(s, f) == s
  {
    FilterFull(Map(s, f), p);
    FilterAll(s, p);
  }

  // -------------------------------------------------------------- other roles

  function AllOther(e: Experience, c: Config, lower: string -> string): seq<OtherRole> {
    KeptOther(e.other, c, lower) + CompactedRoles(e.positions, c)
  }

  /** A compacted role joins the list behind the filter and the cap, so the second time it has to pass both. */
  predicate OtherSettles(e: Experience, c: Config, lower: string -> string) {
    || c.hideOtherExperience
    || (&& (forall role :: role in CompactedRoles(e.positions, c) ==> OtherKept(role, c, lower))
        && FitsCap(|AllOther(e, c, lower)|, c.maxOtherRoles))
  }

  predicate FitsCap(n: nat, cap: Option<int>) {
    cap.None? || cap.value == 0 || n == 0 || (cap.value > 0 && n <= cap.value)
  }

  lemma FitsCapIff<T>(s: seq<T>, cap: Option<int>)
    ensures |Capped(s, cap)| <= |s|
    ensures |Capped(s, cap)| == |s| <==> FitsCap(|s|, cap)
    ensures |Capped(s, cap)| == |s| ==> Capped(s, cap) == s
  {
  }

  lemma KeptIsKept(other: seq<OtherRole>, c: Config, lower: string -> string)
    ensures forall role :: role in KeptOther(other, c, lower) ==> role in other && OtherKept(role, c, lower)
  {
    hide OtherKept;
    var allowed := Filter(other, role => OtherKept(role, c, lower));
    forall role | role in KeptOther(other, c, lower) ensures role in allowed {
      var i :| 0 <= i < |KeptOther(other, c, lower)| && KeptOther(other, c, lower)[i] == role;
      assert allowed[i] == role;
    }
  }

  lemma KeptAgainIff(roles: seq<OtherRole>, c: Config, lower: string -> string)
    ensures KeptOther(roles, c, lower) == roles <==>
            (forall role :: role in roles ==> OtherKept(role, c, lower)) && FitsCap(|roles|, c.maxOtherRoles)
  {
    hide OtherKept;
    var kept := Filter(roles, role => OtherKept(role, c, lower));
    FilterFull(roles, role => OtherKept(role, c, lower));
    FitsCapIff(kept, c.maxOtherRoles);
  }

  /** The other roles are the kept and the compacted ones, in some order. */
  lemma OtherElements(e: Experience, c: Config, lower: string -> string)
    requires !c.hideOtherExperience
    ensures var once := TailoredOther(e, c, lower);
            && multiset(once) == multiset(AllOther(e, c, lower)) && |once| == |AllOther(e, c, lower)|
            && (forall role :: role in once <==>
                  role in KeptOther(e.other, c, lower) || role in CompactedRoles(e.positions, c))
  {
    hide KeptOther;
    hide CompactedRoles;
    var once := TailoredOther(e, c, lower);
    var kept, compacted := KeptOther(e.other, c, lower), CompactedRoles(e.positions, c);
    if compacted == [] { assert kept + compacted == kept; }
    forall role ensures role in once <==> role in kept || role in compacted {
      S.SameElements(once, kept + compacted, role);
    }
  }

  lemma OtherTwiceIff(e: Experience, again: Experience, c: Config, lower: string -> string)
    requires again.other == TailoredOther(e, c, lower) && CompactedRoles(again.positions, c) == []
    ensures TailoredOther(again, c, lower) == TailoredOther(e, c, lower) <==> OtherSettles(e, c, lower)
  {
    hide KeptOther;
    hide CompactedRoles;
    hide OtherKept;
    if !c.hideOtherExperience {
      KeptIsKept(e.other, c, lower);
      OtherElements(e, c, lower);
      KeptAgainIff(again.other, c, lower);
    }
  }

  // ------------------------------------------------- education, skills, profile

  lemma EducationTwice(education: seq<Education>, c: Config)
    ensures var once := TailoredEducation(education, c);
            TailoredEducation(once, c) == once
  {
    FilterAll(TailoredEducation(education, c),
              (x: Education) => Included(x.title, c.includeEducationTitles, c.excludeEducationTitles));
  }

  lemma ProfileTwice(p: Profile, c: Config)
    ensures TailoredProfile(TailoredProfile(p, c), c) == TailoredProfile(p, c)
  {
  }

  function SkillRank(emphasized: set<string>): Skill -> nat {
    (s: Skill) => Indicator(s.id in emphasized)
  }

  lemma SkillRanks(emphasized: set<string>)
    ensures S.RanksBelow(CompareSkills(emphasized), SkillRank(emphasized), 2)
  {
  }

  lemma {:induction false} SkillsOfRank(skills: seq<Skill>, emphasized: set<string>)
    ensures S.OfRank(skills, SkillRank(emphasized), 1) == Filter(skills, (s: Skill) => s.id in emphasized)
    ensures S.OfRank(skills, SkillRank(emphasized), 0) == Filter(skills, (s: Skill) => s.id !in emphasized)
  {
    if skills == [] {
    } else {
      SkillsOfRank(skills[1..], emphasized);
    }
  }

  lemma TwoBuckets<T>(s: seq<T>, rank: T -> nat)
    ensures S.Buckets(s, rank, 2) == S.OfRank(s, rank, 1) + S.OfRank(s, rank, 0)
  {
    var a, b := S.OfRank(s, rank, 1), S.OfRank(s, rank, 0);
    assert S.Buckets(s, rank, 0) == [];
    assert S.Buckets(s, rank, 1) == b + [] == b;
  }

  /** Emphasised skills first, each of the two groups in its order. */
  lemma EmphasizedIsSplit(g: SkillCategory, emphasized: set<string>)
    ensures EmphasizedFirst(g, emphasized).skills ==
            Filter(g.skills, (s: Skill) => s.id in emphasized) + Filter(g.skills, (s: Skill) => s.id !in emphasized)
  {
    hide S.OfRank;
    hide S.Buckets;
    hide S.RanksBelow;
    SkillRanks(emphasized);
    S.SortIsBuckets(CompareSkills(emphasized), g.skills, SkillRank(emphasized), 2);
    TwoBuckets(g.skills, SkillRank(emphasized));
    SkillsOfRank(g.skills, emphasized);
  }

  lemma EmphasizedTwice(g: SkillCategory, emphasized: set<string>)
    ensures EmphasizedFirst(EmphasizedFirst(g, emphasized), emphasized) == EmphasizedFirst(g, emphasized)
  {
    var cmp, d := CompareSkills(emphasized), Elements(g.skills);
    SkillRanks(emphasized);
    S.RankIsConsistent(cmp, SkillRank(emphasized), 2, d);
    S.SortSorts(cmp, g.skills, d);
    S.SortFixed(cmp, S.Sort(cmp, g.skills), d);
  }

  /** What a group looks like once tailored: listed, rid of excluded skills and not empty for it, emphasised first. */
  predicate GroupSettled(g: SkillCategory, c: Config) {
    && (c.includeSkillGroupIds.Some? ==> g.id in c.includeSkillGroupIds.value)
    && (c.excludeSkillIds.Some? ==>
          HasSkills(g) && forall s :: s in g.skills ==> s.id !in SetOf(c.excludeSkillIds))
    && (SetOf(c.emphasizeTags) != {} ==> EmphasizedFirst(g, SetOf(c.emphasizeTags)) == g)
  }

  lemma GroupsFixed(groups: seq<SkillCategory>, c: Config)
    requires forall g :: g in groups ==> GroupSettled(g, c)
    ensures TailoredGroups(groups, c) == groups
  {
    hide EmphasizedFirst;
    if c.includeSkillGroupIds.Some? {
      FilterAll(groups, (g: SkillCategory) => g.id in c.includeSkillGroupIds.value);
    }
    if c.excludeSkillIds.Some? {
      forall g | g in groups ensures WithoutSkills(g, SetOf(c.excludeSkillIds)) == g {
        FilterAll(g.skills, (s: Skill) => s.id !in SetOf(c.excludeSkillIds));
      }
      FixedIff(groups, g => WithoutSkills(g, SetOf(c.excludeSkillIds)));
      FilterAll(groups, HasSkills);
    }
    FixedIff(groups, g => EmphasizedFirst(g, SetOf(c.emphasizeTags)));
  }

  lemma IncludedSettled(groups: seq<SkillCategory>, c: Config)
    ensures forall g :: g in ReducedGroups(IncludedGroups(groups, c), c) ==>
              && (c.includeSkillGroupIds.Some? ==> g.id in c.includeSkillGroupIds.value)
              && (c.excludeSkillIds.Some? ==>
                    HasSkills(g) && forall s :: s in g.skills ==> s.id !in SetOf(c.excludeSkillIds))
  {
    var listed := IncludedGroups(groups, c);
    forall g | g in ReducedGroups(listed, c)
      ensures c.includeSkillGroupIds.Some? ==> g.id in c.includeSkillGroupIds.value
      ensures c.excludeSkillIds.Some? ==>
                HasSkills(g) && forall s :: s in g.skills ==> s.id !in SetOf(c.excludeSkillIds)
    {
      if c.excludeSkillIds.Some? {
        var i := OriginOf(listed, x => WithoutSkills(x, SetOf(c.excludeSkillIds)), HasSkills, g);
        assert listed[i] in listed && g.id == listed[i].id;
      }
    }
  }

  lemma EmphasizedSettles(g: SkillCategory, c: Config)
    requires (c.includeSkillGroupIds.Some? ==> g.id in c.includeSkillGroupIds.value)
    requires c.excludeSkillIds.Some? ==>
               HasSkills(g) && forall s :: s in g.skills ==> s.id !in SetOf(c.excludeSkillIds)
    ensures GroupSettled(EmphasizedFirst(g, SetOf(c.emphasizeTags)), c)
  {
    hide EmphasizedFirst;
    hide SetOf;
    EmphasizedTwice(g, SetOf(c.emphasizeTags));
    EmphasizedKeeps(g, SetOf(c.emphasizeTags));
  }

  lemma GroupsSettle(groups: seq<SkillCategory>, c: Config)
    ensures forall g :: g in TailoredGroups(groups, c) ==> GroupSettled(g, c)
  {
    hide ReducedGroups;
    hide IncludedGroups;
    hide EmphasizedFirst;
    hide SetOf;
    var reduced, emphasized := ReducedGroups(IncludedGroups(groups, c), c), SetOf(c.emphasizeTags);
    IncludedSettled(groups, c);
    forall g | g in TailoredGroups(groups, c) ensures GroupSettled(g, c) {
      if emphasized != {} {
        var i :| 0 <= i < |reduced| && EmphasizedFirst(reduced[i], emphasized) == g;
        assert reduced[i] in reduced;
        EmphasizedSettles(reduced[i], c);
      }
    }
  }

  lemma EmphasizedKeeps(g: SkillCategory, emphasized: set<string>)
    ensures EmphasizedFirst(g, emphasized).id == g.id
    ensures |EmphasizedFirst(g, emphasized).skills| == |g.skills|
    ensures forall s :: s in EmphasizedFirst(g, emphasized).skills <==> s in g.skills
  {
    forall s ensures s in EmphasizedFirst(g, emphasized).skills <==> s in g.skills {
      S.SameElements(EmphasizedFirst(g, emphasized).skills, g.skills, s);
    }
  }

  lemma GroupsTwice(groups: seq<SkillCategory>, c: Config)
    ensures var once := TailoredGroups(groups, c);
            TailoredGroups(once, c) == once
  {
    GroupsSettle(groups, c);
    GroupsFixed(TailoredGroups(groups, c), c);
  }

  // ----------------------------------------------------------- whole resumes

  /**
   Tailoring an already tailored resume again changes nothing, exactly when compacted positions pass the tests
   and the cap of the other roles they joined, and no negative cap cuts into a list once more.
   */
  lemma TailoredResumeTwiceIff(r: Resume, c: Config, lower: string -> string)
    ensures var once := TailoredResume(r, c, lower);
            TailoredResume(once, c, lower) == once <==>
            && OtherSettles(r.experience, c, lower)
            && forall p :: p in KeptPositions(r.experience.positions, c) && Renderable(TailorPosition(p, c)) ==>
                 PositionSettles(p, c)
  {
    hide TailoredProfile;
    hide TailoredPositions;
    hide TailoredOther;
    hide TailoredEducation;
    hide TailoredGroups;
    hide OtherSettles;
    hide PositionSettles;
    hide Renderable;
    hide TailorPosition;
    hide KeptPositions;
    hide CompactedRoles;
    var once := TailoredResume(r, c, lower);
    ProfileTwice(r.profile, c);
    PositionsTwiceIff(r.experience.positions, c);
    OtherTwiceIff(r.experience, once.experience, c, lower);
    EducationTwice(r.experience.education, c);
    GroupsTwice(r.groups, c);
  }

  predicate CapsNotNegative(c: Config) {
    && NotNegative(c.maxAchievementsPerPosition) && NotNegative(c.maxAchievementsPerProject)
    && NotNegative(c.maxProjectsPerPosition) && NotNegative(c.maxOtherRoles)
  }

  /** Caps that are not negative, and no compacted position: tailoring once is enough. */
  lemma NoCompactionTwice(r: Resume, c: Config, lower: string -> string)
    requires CapsNotNegative(c) && forall p :: p in r.experience.positions ==> !IsCompact(p, c)
    ensures var once := TailoredResume(r, c, lower);
            TailoredResume(once, c, lower) == once
  {
    hide OtherKept;
    hide TailoredResume;
    hide KeptPositions;
    hide Renderable;
    hide TailorPosition;
    hide ChosenProjects;
    TailoredResumeTwiceIff(r, c, lower);
    var kept := Filter(r.experience.other, role => OtherKept(role, c, lower));
    FilterNone(r.experience.positions, p => IsCompact(p, c));
    assert AllOther(r.experience, c, lower) == Capped(kept, c.maxOtherRoles);
  }

  /** A compacted position that the other-role filter or cap rejects is gone the second time. */
  lemma CompactedCanVanish(r: Resume, c: Config, lower: string -> string, role: OtherRole)
    requires !c.hideOtherExperience && role in CompactedRoles(r.experience.positions, c) && !OtherKept(role, c, lower)
    ensures var once := TailoredResume(r, c, lower);
            && role in once.experience.other
            && role !in TailoredResume(once, c, lower).experience.other
  {
    hide OtherKept;
    hide CompactedRoles;
    hide KeptOther;
    hide TailoredPositions;
    hide TailoredEducation;
    hide TailoredGroups;
    hide TailoredProfile;
    var once := TailoredResume(r, c, lower);
    OtherElements(r.experience, c, lower);
    PositionsTwiceIff(r.experience.positions, c);
    KeptIsKept(once.experience.other, c, lower);
  }

  // --------------------------------------------------------------- compaction

  /**
   Every position that stays in full comes from an included one that is not compacted, so with distinct ids no
   position is shown in both forms; the compact form is shown for every compacted position.
   */
  lemma FullOrCompact(r: Resume, c: Config, lower: string -> string)
    requires Distinct(Map(r.experience.positions, (p: Position) => p.id))
    ensures var once := TailoredResume(r, c, lower).experience;
            && (forall p :: p in once.positions ==>
                  exists q :: q in r.experience.positions && p == TailorPosition(q, c) && !IsCompact(q, c)
                              && IsIncluded(q, c) && Renderable(p))
            && (forall p, q :: p in once.positions && q in r.experience.positions && IsCompact(q, c) ==> p.id != q.id)
            && (!c.hideOtherExperience ==>
                  forall q :: q in r.experience.positions && IsCompact(q, c) ==> CompactRole(q) in once.other)
            && Distinct(Map(once.positions, (p: Position) => p.id))
  {
    hide Renderable;
    hide TailorPosition;
    hide CompactRole;
    hide KeptOther;
    var all := r.experience.positions;
    var kept, tailor := KeptPositions(all, c), p => TailorPosition(p, c);
    var once := TailoredPositions(all, c);
    var compact := Filter(all, p => IsCompact(p, c));
    forall p | p in once
      ensures exists q :: q in all && p == tailor(q) && !IsCompact(q, c) && IsIncluded(q, c) && Renderable(p)
                          && p.id == q.id
    {
      var i := OriginOf(kept, tailor, Renderable, p);
      KeepsId(kept[i], c);
      assert kept[i] in kept;
    }
    if !c.hideOtherExperience {
      OtherElements(r.experience, c, lower);
      forall q | q in all && IsCompact(q, c) ensures CompactRole(q) in CompactedRoles(all, c) {
        var i :| 0 <= i < |compact| && compact[i] == q;
        assert Map(compact, CompactRole)[i] == CompactRole(q);
      }
    }
    PositionIdsDistinct(all, c);
  }

  lemma PositionIdsDistinct(positions: seq<Position>, c: Config)
    requires Distinct(Map(positions, (p: Position) => p.id))
    ensures Distinct(Map(TailoredPositions(positions, c), (p: Position) => p.id))
  {
    hide Renderable;
    hide TailorPosition;
    var id, tailor := (p: Position) => p.id, p => TailorPosition(p, c);
    var included := Filter(positions, p => IsIncluded(p, c));
    FilterKeys(positions, p => IsIncluded(p, c), id);
    FilterKeys(included, p => !IsCompact(p, c), id);
    var kept := KeptPositions(positions, c);
    var mapped := Map(kept, tailor);
    forall i | 0 <= i < |kept| ensures Map(mapped, id)[i] == Map(kept, id)[i] {
      KeepsId(kept[i], c);
    }
    assert Map(mapped, id) == Map(kept, id);
    FilterKeys(mapped, Renderable, id);
  }

  lemma YearsConsistent(d: set<OtherRole>)
    ensures S.Consistent(ByYear(), d)
  {
    hide StartYear;
    forall x, y, z | S.Leq(ByYear(), x, y) && S.Leq(ByYear(), y, z) ensures S.Leq(ByYear(), x, z) {
      assert StartYear(x.period) >= StartYear(y.period) >= StartYear(z.period);
    }
  }

  function OfYear(roles: seq<OtherRole>, year: int): seq<OtherRole> {
    Filter(roles, (role: OtherRole) => StartYear(role.period) == year)
  }

  /** Once a position was compacted, the other roles are the kept and compacted ones, newest first, ties in order. */
  lemma OtherRolesByYear(e: Experience, c: Config, lower: string -> string)
    requires !c.hideOtherExperience && CompactedRoles(e.positions, c) != []
    ensures var s, t := AllOther(e, c, lower), TailoredOther(e, c, lower);
            && multiset(t) == multiset(s)
            && (forall i, j :: 0 <= i < j < |t| ==> StartYear(t[i].period) >= StartYear(t[j].period))
            && (forall year :: OfYear(t, year) == OfYear(s, year))
  {
    hide KeptOther;
    hide CompactedRoles;
    hide StartYear;
    hide OfYear;
    var s, t := AllOther(e, c, lower), TailoredOther(e, c, lower);
    var d := Elements(s);
    YearsConsistent(d);
    S.SortSorts(ByYear(), s, d);
    forall i, j | 0 <= i < j < |t| ensures StartYear(t[i].period) >= StartYear(t[j].period) {
      assert S.Leq(ByYear(), t[i], t[j]);
    }
    forall year ensures OfYear(t, year) == OfYear(s, year) {
      SameYear(s, year, d);
    }
  }

  lemma {:induction false} TiesAreYear(s: seq<OtherRole>, w: OtherRole)
    ensures S.Ties(ByYear(), w, s) == OfYear(s, StartYear(w.period))
  {
    hide StartYear;
    if s == [] {
    } else {
      TiesAreYear(s[1..], w);
    }
  }

  lemma SameYear(s: seq<OtherRole>, year: int, d: set<OtherRole>)
    requires S.Consistent(ByYear(), d) && S.Within(s, d)
    ensures OfYear(S.Sort(ByYear(), s), year) == OfYear(s, year)
  {
    hide StartYear;
    hide S.Consistent;
    hide S.Ties;
    hide S.Sort;
    var t := S.Sort(ByYear(), s);
    if w :| w in s && StartYear(w.period) == year {
      S.SortTies(ByYear(), s, w, d);
      TiesAreYear(s, w);
      TiesAreYear(t, w);
    } else {
      forall x | x in t ensures StartYear(x.period) != year {
        S.SameElements(s, t, x);
      }
      FilterNone(s, (role: OtherRole) => StartYear(role.period) == year);
      FilterNone(t, (role: OtherRole) => StartYear(role.period) == year);
    }
  }

  /** Four digits in a row somewhere. */
  predicate HasYear(s: string) {
    exists k :: 0 <= k < |s| && FourDigitsAt(s, k)
  }

  lemma {:induction false} YearFound(s: string, i: nat, k: nat)
    requires i <= k && YearAt(s, k)
    ensures |YearFrom(s, i)| == 4 && FourDigitsAt(YearFrom(s, i), 0)
    decreases k - i
  {
    if !YearAt(s, i) {
      YearFound(s, i + 1, k);
    }
  }

  lemma {:induction false} YearFromIs(s: string, i: nat)
    requires i <= |s|
    ensures YearFrom(s, i) == s || (|YearFrom(s, i)| == 4 && FourDigitsAt(YearFrom(s, i), 0) && HasYear(s))
    decreases |s| - i
  {
    if i < |s| && !YearAt(s, i) {
      YearFromIs(s, i + 1);
    } else if i < |s| {
      assert FourDigitsAt(s, i);
    }
  }

  lemma YearOfKeeps(s: string)
    ensures HasYear(YearOf(s)) <==> HasYear(s)
  {
    YearFromIs(s, 0);
  }

  /** The first number decides: it stands in front of the dash, or behind it if there is none in front. */
  lemma {:induction false} PeriodYear(a: string, dash: char, b: string)
    requires !IsDigit(dash)
    ensures StartYear(a + [dash] + b) == if HasYear(a) then StartYear(a) else StartYear(b)
  {
    var s := a + [dash] + b;
    if a == "" {
      assert s[1..] == b;
      assert s[0] == dash;
    } else {
      assert s[1..] == a[1..] + [dash] + b;
      PeriodYear(a[1..], dash, b);
      HeadYear(a, dash, b);
      TailYear(a);
    }
  }

  lemma HeadYear(a: string, dash: char, b: string)
    requires !IsDigit(dash) && a != ""
    ensures FourDigitsAt(a + [dash] + b, 0) <==> FourDigitsAt(a, 0)
    ensures FourDigitsAt(a, 0) ==> (a + [dash] + b)[..4] == a[..4]
  {
    var s := a + [dash] + b;
    assert s[|a|] == dash;
    assert forall k :: 0 <= k < |a| ==> s[k] == a[k];
  }

  lemma TailYear(a: string)
    requires a != ""
    ensures HasYear(a) <==> FourDigitsAt(a, 0) || HasYear(a[1..])
    ensures !FourDigitsAt(a, 0) ==> StartYear(a) == StartYear(a[1..])
  {
    if k :| 0 <= k < |a| && FourDigitsAt(a, k) {
      assert k > 0 ==> FourDigitsAt(a[1..], k - 1);
    }
    if k :| 0 <= k < |a| - 1 && FourDigitsAt(a[1..], k) {
      assert FourDigitsAt(a, k + 1);
    }
  }

  /**
   A compacted position takes the place of the first year in its start; without four digits in a row there, that of
   its end. A year set off by white space and a dash is taken even behind another number.
   */
  lemma CompactedYear(p: Position)
    ensures StartYear(CompactRole(p).period) ==
            if HasYear(p.start) then StartYear(YearOf(p.start)) else StartYear(YearOf(p.end))
    ensures (exists k :: 0 <= k < |p.start| && YearAt(p.start, k)) ==>
              StartYear(CompactRole(p).period) == DigitsValue(YearOf(p.start))
  {
    var a, b := YearOf(p.start), YearOf(p.end);
    YearOfKeeps(p.start);
    assert CompactRole(p).period == a + ['\U{2013}'] + b;
    PeriodYear(a, '\U{2013}', b);
    if k :| 0 <= k < |p.start| && YearAt(p.start, k) {
      assert FourDigitsAt(p.start, k);
      YearFound(p.start, 0, k);
      assert a[..4] == a;
    }
  }

  /** A start that names no year leaves the place to the end: spring of a position that ended in 2015 sorts as 2015. */
  lemma SeasonSortsByEnd(p: Position)
    requires p.start == "Spring" && p.end == "2015"
    ensures StartYear(CompactRole(p).period) == 2015
  {
    hide CompactRole;
    hide HasYear;
    hide StartYear;
    hide YearOf;
    CompactedYear(p);
    SpringHasNoYear();
    PlainYear("2015");
    NumberOf2015();
  }

  lemma SpringHasNoYear()
    ensures !HasYear("Spring")
  {
    forall k | 0 <= k < |"Spring"| ensures !FourDigitsAt("Spring", k) {
      assert !IsDigit("Spring"[k]);
    }
  }

  lemma PlainYear(s: string)
    requires |s| == 4 && FourDigitsAt(s, 0)
    ensures StartYear(YearOf(s)) == DigitsValue(s)
  {
    hide DigitsValue;
    assert YearAt(s, 0);
    assert s[0..4] == s[..4] == s;
  }

  lemma NumberOf2015()
    ensures FourDigitsAt("2015", 0) && DigitsValue("2015") == 2015
  {
    assert "2015"[..3] == "201" && "201"[..2] == "20" && "20"[..1] == "2";
    assert DigitsValue("2") == 2;
    assert DigitsValue("20") == 20;
    assert DigitsValue("201") == 201;
  }
}
