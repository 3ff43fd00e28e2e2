/** What a tailored resume shows, in the words of the configuration: which entries, in which order, with which text. */
module TailoringContents {
  import opened Sequences
  import opened JsText
  import opened Tailoring
  import opened ApplyTailoring
  import opened ApplyTailoringTheorems
  import S = StableSort

  // ------------------------------------------------------------ what is asked for

  predicate Lists(ids: Option<seq<string>>, id: string) {
    ids.Some? && id in ids.value
  }

  /** The ids for experience, where there are any, stand in front of those for positions. */
  predicate AskedFor(id: string, c: Config) {
    && (if c.includeExperienceIds.Some? then id in c.includeExperienceIds.value
        else c.includePositionIds.Some? ==> id in c.includePositionIds.value)
    && (if c.excludeExperienceIds.Some? then id !in c.excludeExperienceIds.value
        else !Lists(c.excludePositionIds, id))
    && !Lists(c.compactExperienceIds, id)
  }

  predicate ProjectAskedFor(id: string, c: Config) {
    (c.includeProjectIds.Some? ==> id in c.includeProjectIds.value) && !Lists(c.excludeProjectIds, id)
  }

  /** How many of `n` entries a cap leaves: all without one and for 0; a negative one counts from the back. */
  function Left(n: nat, cap: Option<int>): nat {
    if cap.None? || cap.value == 0 then n
    else if cap.value > 0 then (if cap.value < n then cap.value else n)
    else if n + cap.value > 0 then n + cap.value
    else 0
  }

  lemma LeftIsCapped<T>(s: seq<T>, cap: Option<int>)
    ensures |Capped(s, cap)| == Left(|s|, cap) && Capped(s, cap) == s[..Left(|s|, cap)]
  {
  }

  // --------------------------------------------------------------- achievements

  /** Named in the lists kept under one of `ids`. */
  predicate NamedUnder(titles: map<string, seq<string>>, ids: seq<string>, a: Achievement) {
    exists id :: id in ids && id in titles && a.title in titles[id]
  }

  predicate Tagged(a: Achievement, tags: Option<seq<string>>) {
    exists tag :: tag in a.tags && Lists(tags, tag)
  }

  predicate Top(a: Achievement, ids: seq<string>, c: Config) {
    NamedUnder(c.pinnedAchievementTitles, ids, a)
  }

  /** Not dropped by its title, and pinned or without an excluded tag. */
  predicate Stays(a: Achievement, ids: seq<string>, c: Config) {
    && !NamedUnder(c.droppedAchievementTitles, ids, a)
    && (Top(a, ids, c) || !Tagged(a, c.excludeTags))
  }

  function Part(all: seq<Achievement>, ids: seq<string>, c: Config, top: bool, preferred: bool): seq<Achievement> {
    Filter(all, a => Stays(a, ids, c) && Top(a, ids, c) == top && Tagged(a, c.emphasizeTags) == preferred)
  }

  /** The achievements to show, pinned ones first, in each half those with an emphasised tag first. */
  function Queue(all: seq<Achievement>, ids: seq<string>, c: Config): seq<Achievement> {
    Part(all, ids, c, true, true) + Part(all, ids, c, true, false)
    + Part(all, ids, c, false, true) + Part(all, ids, c, false, false)
  }

  /** As many of the queue as the cap leaves, and no fewer than are pinned. */
  function Shown(all: seq<Achievement>, ids: seq<string>, cap: Option<int>, c: Config): seq<Achievement> {
    var queue := Queue(all, ids, c);
    var left, top := Left(|queue|, cap), |Part(all, ids, c, true, true)| + |Part(all, ids, c, true, false)|;
    queue[..if left < top then top else left]
  }

  lemma TagsMean(a: Achievement, tags: Option<seq<string>>)
    ensures HasAnyTag(a.tags, SetOf(tags)) <==> Tagged(a, tags)
  {
    forall tag: string ensures tag in SetOf(tags) <==> Lists(tags, tag) {
    }
  }

  lemma TitlesMean(titles: map<string, seq<string>>, ids: seq<string>, a: Achievement)
    ensures a.title in TitlesForIds(titles, ids) <==> NamedUnder(titles, ids, a)
  {
  }

  lemma RulesMean(a: Achievement, ids: seq<string>, c: Config)
    ensures IsPinned(a, RulesFor(c, ids)) <==> Top(a, ids, c)
    ensures IsRetained(a, RulesFor(c, ids)) <==> Stays(a, ids, c)
    ensures IsEmphasized(a, RulesFor(c, ids)) <==> Tagged(a, c.emphasizeTags)
  {
    hide HasAnyTag;
    hide TitlesForIds;
    hide Tagged;
    hide NamedUnder;
    TagsMean(a, c.emphasizeTags);
    TagsMean(a, c.excludeTags);
    TitlesMean(c.pinnedAchievementTitles, ids, a);
    TitlesMean(c.droppedAchievementTitles, ids, a);
  }

  lemma GroupIsPart(all: seq<Achievement>, ids: seq<string>, c: Config, top: bool, preferred: bool)
    ensures var rules := RulesFor(c, ids);
            Group(Filter(all, a => IsRetained(a, rules)), rules, top, preferred) == Part(all, ids, c, top, preferred)
  {
    hide RulesFor;
    hide IsPinned;
    hide IsRetained;
    hide IsEmphasized;
    hide Top;
    hide Stays;
    hide Tagged;
    var rules := RulesFor(c, ids);
    forall a ensures IsRetained(a, rules) == Stays(a, ids, c) && IsPinned(a, rules) == Top(a, ids, c)
                     && IsEmphasized(a, rules) == Tagged(a, c.emphasizeTags)
    {
      RulesMean(a, ids, c);
    }
    FilterFilter(
      all, a => IsRetained(a, rules), a => IsPinned(a, rules) == top && IsEmphasized(a, rules) == preferred,
      a => Stays(a, ids, c) && Top(a, ids, c) == top && Tagged(a, c.emphasizeTags) == preferred);
  }

  lemma PartIsTop(all: seq<Achievement>, ids: seq<string>, c: Config, top: bool, preferred: bool)
    ensures forall a :: a in Part(all, ids, c, top, preferred) ==> Top(a, ids, c) == top
  {
    hide Top;
    hide Stays;
    hide Tagged;
  }

  lemma TopCount(all: seq<Achievement>, ids: seq<string>, c: Config)
    ensures Count(Queue(all, ids, c), a => IsPinned(a, RulesFor(c, ids))) ==
            |Part(all, ids, c, true, true)| + |Part(all, ids, c, true, false)|
  {
    hide Part;
    hide RulesFor;
    hide IsPinned;
    hide Top;
    var p := a => IsPinned(a, RulesFor(c, ids));
    var w, x, y, z := Part(all, ids, c, true, true), Part(all, ids, c, true, false),
                      Part(all, ids, c, false, true), Part(all, ids, c, false, false);
    forall a: Achievement ensures p(a) == Top(a, ids, c) {
      RulesMean(a, ids, c);
    }
    PartIsTop(all, ids, c, true, true);
    PartIsTop(all, ids, c, true, false);
    PartIsTop(all, ids, c, false, true);
    PartIsTop(all, ids, c, false, false);
    FilterAll(w, p);
    FilterAll(x, p);
    FilterNone(y, p);
    FilterNone(z, p);
    FilterAppend(w + x + y, z, p);
    FilterAppend(w + x, y, p);
    FilterAppend(w, x, p);
  }

  /** Tailoring achievements shows exactly the ones asked for, in this order. */
  lemma AchievementsShown(all: seq<Achievement>, ids: seq<string>, cap: Option<int>, c: Config)
    ensures Tailored(all, RulesFor(c, ids), cap) == Shown(all, ids, cap, c)
  {
    hide RulesFor;
    hide Part;
    hide Group;
    hide IsPinned;
    hide IsRetained;
    hide Ordered;
    hide Capped;
    hide Left;
    var rules := RulesFor(c, ids);
    OrderedIsGrouped(all, rules);
    GroupIsPart(all, ids, c, true, true);
    GroupIsPart(all, ids, c, true, false);
    GroupIsPart(all, ids, c, false, true);
    GroupIsPart(all, ids, c, false, false);
    assert Ordered(all, rules) == Queue(all, ids, c);
    TopCount(all, ids, c);
    LeftIsCapped(Ordered(all, rules), cap);
    LeftWithin(|Queue(all, ids, c)|, cap);
  }

  lemma LeftWithin(n: nat, cap: Option<int>)
    ensures Left(n, cap) <= n
  {
  }

  // ------------------------------------------------------------------ positions

  /** The projects shown in a position: of those asked for, as many as the cap leaves. */
  function ProjectsShown(p: Position, c: Config): seq<Project> {
    LeftWithin(|Filter(if p.projects.Some? then p.projects.value else [], (x: Project) => ProjectAskedFor(x.id, c))|,
               c.maxProjectsPerPosition);
    var asked := Filter(if p.projects.Some? then p.projects.value else [], (x: Project) => ProjectAskedFor(x.id, c));
    asked[..Left(|asked|, c.maxProjectsPerPosition)]
  }

  function ProjectAchievements(x: Project, p: Position, c: Config): seq<Achievement> {
    var cap := if c.maxAchievementsPerProject.Some? then c.maxAchievementsPerProject else c.maxAchievementsPerPosition;
    Shown(x.achievements, [x.id, p.id], cap, c)
  }

  predicate DutiesShown(duties: Option<seq<Duty>>, c: Config) {
    c.includeDuties != Some(false) && duties.Some? && |duties.value| > 0
  }

  /** Something is left to show: an achievement or a duty of the position or of a project shown in it. */
  predicate HasContent(p: Position, c: Config) {
    || Shown(p.achievements, [p.id], c.maxAchievementsPerPosition, c) != []
    || DutiesShown(p.duties, c)
    || exists x :: x in ProjectsShown(p, c) && (ProjectAchievements(x, p, c) != [] || DutiesShown(x.duties, c))
  }

  lemma ProjectsAre(p: Position, c: Config)
    ensures ChosenProjects(p, c) == ProjectsShown(p, c)
  {
    hide Capped;
    var all := if p.projects.Some? then p.projects.value else [];
    FilterCongruent(all, x => ProjectIncluded(x, c), (x: Project) => ProjectAskedFor(x.id, c));
    LeftIsCapped(Filter(all, x => ProjectIncluded(x, c)), c.maxProjectsPerPosition);
  }

  /** What a shown project is made of; only its duties and its achievements change. */
  lemma ProjectIs(x: Project, p: Position, c: Config)
    ensures TailorProject(x, p.id, c) ==
            Project(x.id, x.name, if c.includeDuties == Some(false) then Some([]) else x.duties,
                    ProjectAchievements(x, p, c))
  {
    hide Shown;
    hide Tailored;
    AchievementsShown(
      x.achievements, [x.id, p.id], Either(c.maxAchievementsPerProject, c.maxAchievementsPerPosition), c);
  }

  /** What a shown position is made of. */
  lemma PositionIs(p: Position, c: Config)
    ensures var shown := TailorPosition(p, c);
            && (shown.id, shown.role, shown.company, shown.start, shown.end, shown.blurb, shown.tags) ==
               (p.id, p.role, p.company, p.start, p.end, p.blurb, p.tags)
            && shown.duties == (if c.includeDuties == Some(false) then Some([]) else p.duties)
            && shown.achievements == Shown(p.achievements, [p.id], c.maxAchievementsPerPosition, c)
            && shown.projects.Some? && |shown.projects.value| == |ProjectsShown(p, c)|
            && forall i :: 0 <= i < |ProjectsShown(p, c)| ==>
                 var x := ProjectsShown(p, c)[i];
                 shown.projects.value[i] ==
                 Project(x.id, x.name, if c.includeDuties == Some(false) then Some([]) else x.duties,
                         ProjectAchievements(x, p, c))
  {
    hide Shown;
    hide Tailored;
    hide ProjectsShown;
    hide ProjectAchievements;
    AchievementsShown(p.achievements, [p.id], c.maxAchievementsPerPosition, c);
    ProjectsAre(p, c);
    forall x: Project
      ensures TailorProject(x, p.id, c) ==
              Project(x.id, x.name, if c.includeDuties == Some(false) then Some([]) else x.duties,
                      ProjectAchievements(x, p, c))
    {
      ProjectIs(x, p, c);
    }
  }

  lemma RenderableIff(p: Position, c: Config)
    ensures Renderable(TailorPosition(p, c)) <==> HasContent(p, c)
  {
    hide Shown;
    hide ProjectsShown;
    hide ProjectAchievements;
    hide TailorPosition;
    PositionIs(p, c);
    var shown, xs := TailorPosition(p, c).projects.value, ProjectsShown(p, c);
    assert forall i :: 0 <= i < |xs| ==>
             (shown[i].achievements != [] || HasDuties(shown[i].duties) <==>
              ProjectAchievements(xs[i], p, c) != [] || DutiesShown(xs[i].duties, c));
    if x :| x in shown && (x.achievements != [] || HasDuties(x.duties)) {
      var i :| 0 <= i < |shown| && shown[i] == x;
      assert xs[i] in xs;
    }
    if x :| x in xs && (ProjectAchievements(x, p, c) != [] || DutiesShown(x.duties, c)) {
      var i :| 0 <= i < |xs| && xs[i] == x;
      assert shown[i] in shown;
    }
  }

  lemma KeptIff(p: Position, c: Config)
    ensures IsIncluded(p, c) && !IsCompact(p, c) <==> AskedFor(p.id, c)
  {
  }

  /** The positions shown are those asked for with something to show, in order. */
  lemma PositionsShown(positions: seq<Position>, c: Config)
    ensures TailoredPositions(positions, c) ==
            Map(Filter(positions, (p: Position) => AskedFor(p.id, c) && HasContent(p, c)), p => TailorPosition(p, c))
  {
    hide IsIncluded;
    hide IsCompact;
    hide AskedFor;
    hide HasContent;
    hide TailorPosition;
    hide Renderable;
    forall p: Position
      ensures (IsIncluded(p, c) && !IsCompact(p, c)) == AskedFor(p.id, c)
      ensures Renderable(TailorPosition(p, c)) == HasContent(p, c)
    {
      KeptIff(p, c);
      RenderableIff(p, c);
    }
    var asked := Filter(positions, (p: Position) => AskedFor(p.id, c));
    FilterFilter(positions, p => IsIncluded(p, c), p => !IsCompact(p, c), (p: Position) => AskedFor(p.id, c));
    FilterMap(asked, p => TailorPosition(p, c), p => HasContent(p, c), Renderable);
    FilterFilter(positions, (p: Position) => AskedFor(p.id, c), p => HasContent(p, c),
                 (p: Position) => AskedFor(p.id, c) && HasContent(p, c));
  }

  ghost predicate HasId(positions: seq<Position>, id: string) {
    exists p :: p in positions && p.id == id
  }

  /** A position id is shown exactly when a position of that id is asked for and has something to show. */
  lemma PositionIdShownIff(r: Resume, c: Config, lower: string -> string, id: string)
    ensures HasId(TailoredResume(r, c, lower).experience.positions, id) <==>
            AskedFor(id, c) && exists p :: p in r.experience.positions && p.id == id && HasContent(p, c)
  {
    hide TailorPosition;
    hide HasContent;
    hide AskedFor;
    hide TailoredPositions;
    var all := r.experience.positions;
    PositionsShown(all, c);
    var left := Filter(all, (p: Position) => AskedFor(p.id, c) && HasContent(p, c));
    forall p: Position ensures TailorPosition(p, c).id == p.id {
      KeepsId(p, c);
    }
    KeyInMap(left, p => TailorPosition(p, c), (p: Position) => p.id, (p: Position) => p.id, id);
    if AskedFor(id, c) {
      if p :| p in all && p.id == id && HasContent(p, c) {
        assert p in left;
      }
    }
  }

  ghost predicate HasKey<T(!new), K>(s: seq<T>, key: T -> K, k: K) {
    exists x :: x in s && key(x) == k
  }

  lemma KeyInMap<T(!new), U(!new), K>(s: seq<T>, f: T -> U, key: T -> K, mappedKey: U -> K, k: K)
    requires forall x :: x in s ==> mappedKey(f(x)) == key(x)
    ensures HasKey(Map(s, f), mappedKey, k) <==> HasKey(s, key, k)
  {
    var t := Map(s, f);
    if y :| y in t && mappedKey(y) == k {
      var i :| 0 <= i < |t| && t[i] == y;
      assert s[i] in s;
    }
    if x :| x in s && key(x) == k {
      var i :| 0 <= i < |s| && s[i] == x;
      assert t[i] in t;
    }
  }

  /** Without a cap on projects, a project is shown in a position exactly when it is one of its and asked for. */
  lemma ProjectIdShownIff(p: Position, c: Config, id: string)
    requires c.maxProjectsPerPosition.None? || c.maxProjectsPerPosition == Some(0)
    ensures (exists x :: x in TailorPosition(p, c).projects.value && x.id == id) <==>
            ProjectAskedFor(id, c) && p.projects.Some? && exists x :: x in p.projects.value && x.id == id
  {
    hide ProjectAskedFor;
    hide Tailored;
    hide TailorProject;
    var chosen := ChosenProjects(p, c);
    ProjectsAre(p, c);
    forall x: Project ensures TailorProject(x, p.id, c).id == x.id {
      ProjectIs(x, p, c);
    }
    KeyInMap(chosen, x => TailorProject(x, p.id, c), (x: Project) => x.id, (x: Project) => x.id, id);
    assert HasKey(TailorPosition(p, c).projects.value, (x: Project) => x.id, id) <==>
           HasKey(chosen, (x: Project) => x.id, id);
  }

  // ------------------------------------------------------------ the other sections

  /** A title is shown exactly when an entry has it and the lists of titles let it through. */
  lemma EducationShownIff(r: Resume, c: Config, lower: string -> string, entry: Education)
    ensures entry in TailoredResume(r, c, lower).experience.education <==>
            && entry in r.experience.education
            && (c.includeEducationTitles.Some? ==> entry.title in c.includeEducationTitles.value)
            && !Lists(c.excludeEducationTitles, entry.title)
    ensures TailoredResume(r, c, lower).experience.education ==
            Filter(r.experience.education, (x: Education) =>
                     (c.includeEducationTitles.Some? ==> x.title in c.includeEducationTitles.value)
                     && !Lists(c.excludeEducationTitles, x.title))
  {
    FilterCongruent(
      r.experience.education,
      (x: Education) => Included(x.title, c.includeEducationTitles, c.excludeEducationTitles),
      (x: Education) =>
        (c.includeEducationTitles.Some? ==> x.title in c.includeEducationTitles.value)
        && !Lists(c.excludeEducationTitles, x.title));
    hide TailoredPositions;
    hide TailoredOther;
    hide TailoredGroups;
  }

  /** An empty override is none. */
  lemma ProfileShown(r: Resume, c: Config, lower: string -> string)
    ensures var p := TailoredResume(r, c, lower).profile;
            && p.name == r.profile.name
            && p.title == (if c.title.Some? && |c.title.value| > 0 then c.title.value else r.profile.title)
            && p.summary == (if c.summary.Some? && |c.summary.value| > 0 then c.summary.value else r.profile.summary)
  {
    hide TailoredPositions;
    hide TailoredOther;
    hide TailoredGroups;
  }

  /** The names of a list of companies, trimmed and in lower case, hold that of this one. */
  predicate NamesCompany(companies: seq<string>, company: string, lower: string -> string) {
    exists other :: other in companies && lower(Trim(other)) == lower(Trim(company))
  }

  predicate RoleAskedFor(role: OtherRole, c: Config, lower: string -> string) {
    && (c.includeOtherCompanies.Some? ==> NamesCompany(c.includeOtherCompanies.value, role.company, lower))
    && !(c.excludeOtherCompanies.Some? && NamesCompany(c.excludeOtherCompanies.value, role.company, lower))
    && !(role.tags.Some? && exists tag :: tag in role.tags.value && Lists(c.excludeTags, tag))
  }

  lemma NamesMean(companies: seq<string>, company: string, lower: string -> string)
    ensures lower(Trim(company)) in NormalCompanies(companies, lower) <==> NamesCompany(companies, company, lower)
  {
    hide Trim;
    var names := NormalCompanies(companies, lower);
    if other :| other in companies && lower(Trim(other)) == lower(Trim(company)) {
      var i :| 0 <= i < |companies| && companies[i] == other;
      assert names[i] == lower(Trim(company));
    }
    if lower(Trim(company)) in names {
      var i :| 0 <= i < |names| && names[i] == lower(Trim(company));
      assert companies[i] in companies;
    }
  }

  lemma RoleKeptIff(role: OtherRole, c: Config, lower: string -> string)
    ensures OtherKept(role, c, lower) <==> RoleAskedFor(role, c, lower)
  {
    hide Trim;
    hide NormalCompanies;
    hide NamesCompany;
    if c.includeOtherCompanies.Some? {
      NamesMean(c.includeOtherCompanies.value, role.company, lower);
    }
    if c.excludeOtherCompanies.Some? {
      NamesMean(c.excludeOtherCompanies.value, role.company, lower);
    }
    forall tag: string ensures tag in SetOf(c.excludeTags) <==> Lists(c.excludeTags, tag) {
    }
  }

  lemma RolesKept(other: seq<OtherRole>, c: Config, lower: string -> string)
    ensures var asked := Filter(other, (role: OtherRole) => RoleAskedFor(role, c, lower));
            && Left(|asked|, c.maxOtherRoles) <= |asked|
            && KeptOther(other, c, lower) == asked[..Left(|asked|, c.maxOtherRoles)]
  {
    hide OtherKept;
    hide RoleAskedFor;
    hide Capped;
    forall role: OtherRole ensures OtherKept(role, c, lower) == RoleAskedFor(role, c, lower) {
      RoleKeptIff(role, c, lower);
    }
    FilterCongruent(other, role => OtherKept(role, c, lower), (role: OtherRole) => RoleAskedFor(role, c, lower));
    LeftIsCapped(Filter(other, role => OtherKept(role, c, lower)), c.maxOtherRoles);
    LeftWithin(|Filter(other, role => OtherKept(role, c, lower))|, c.maxOtherRoles);
  }

  /** Four digits at `k`, at the start or behind white space, and at the end or in front of a dash. */
  predicate YearStandsAt(s: string, k: nat) {
    && k + 4 <= |s| && (forall i :: k <= i < k + 4 ==> '0' <= s[i] <= '9')
    && (k == 0 || IsSpace(s[k - 1])) && (k + 4 == |s| || s[k + 4] == '-')
  }

  lemma YearAtIff(s: string, k: nat)
    ensures YearAt(s, k) <==> YearStandsAt(s, k)
  {
  }

  lemma {:induction false} YearFromFirst(s: string, i: nat)
    requires i <= |s|
    ensures (exists k :: i <= k < |s| && YearStandsAt(s, k) && YearFrom(s, i) == s[k..k + 4]
                         && forall j :: i <= j < k ==> !YearStandsAt(s, j))
            || (YearFrom(s, i) == s && forall j :: i <= j < |s| ==> !YearStandsAt(s, j))
    decreases |s| - i
  {
    hide FourDigitsAt;
    hide YearStandsAt;
    if i < |s| {
      YearAtIff(s, i);
      if !YearAt(s, i) {
        YearFromFirst(s, i + 1);
      }
    }
  }

  /** The year of a date is the first one that stands alone in it, or the whole date if none does. */
  ghost predicate IsYearOf(year: string, s: string) {
    || (exists k :: 0 <= k < |s| && YearStandsAt(s, k) && year == s[k..k + 4]
                    && forall j :: 0 <= j < k ==> !YearStandsAt(s, j))
    || (year == s && forall j :: 0 <= j < |s| ==> !YearStandsAt(s, j))
  }

  ghost predicate IsPeriodOf(period: string, p: Position) {
    exists a, b :: IsYearOf(a, p.start) && IsYearOf(b, p.end) && period == a + "\U{2013}" + b
  }

  /** The role a compacted position becomes. */
  ghost predicate IsCompactForm(role: OtherRole, p: Position) {
    && role.role == p.role && role.company == p.company && role.body == p.blurb && role.tags == p.tags
    && IsPeriodOf(role.period, p)
  }

  lemma CompactForm(p: Position)
    ensures IsCompactForm(CompactRole(p), p)
  {
    hide YearFrom;
    YearFromFirst(p.start, 0);
    YearFromFirst(p.end, 0);
    assert IsYearOf(YearOf(p.start), p.start) && IsYearOf(YearOf(p.end), p.end);
  }

  predicate FourDigits(s: string, k: nat) {
    k + 4 <= |s| && forall i :: k <= i < k + 4 ==> '0' <= s[i] <= '9'
  }

  function Digit(c: char): int {
    c as int - '0' as int
  }

  lemma FourDigitNumber(s: string)
    requires |s| == 4 && FourDigits(s, 0)
    ensures DigitsValue(s) == 1000 * Digit(s[0]) + 100 * Digit(s[1]) + 10 * Digit(s[2]) + Digit(s[3])
  {
    assert s[..3][..2] == s[..2] && s[..2][..1] == s[..1] && s[..1][..0] == "";
    assert DigitsValue(s[..1]) == Digit(s[0]);
    assert DigitsValue(s[..2]) == 10 * DigitsValue(s[..1]) + Digit(s[1]);
    assert DigitsValue(s[..3]) == 10 * DigitsValue(s[..2]) + Digit(s[2]);
  }

  /** The first four digits in a row start at `k`. */
  ghost predicate FirstFour(s: string, k: nat) {
    FourDigits(s, k) && forall j :: 0 <= j < k ==> !FourDigits(s, j)
  }

  function NumberAt(s: string, k: nat): int
    requires k + 4 <= |s|
  {
    1000 * Digit(s[k]) + 100 * Digit(s[k + 1]) + 10 * Digit(s[k + 2]) + Digit(s[k + 3])
  }

  lemma FirstShift(s: string, k: nat)
    requires 0 < k && FirstFour(s, k)
    ensures FirstFour(s[1..], k - 1) && NumberAt(s[1..], k - 1) == NumberAt(s, k)
  {
    var t := s[1..];
    assert t[k - 1] == s[k] && t[k] == s[k + 1] && t[k + 1] == s[k + 2] && t[k + 2] == s[k + 3];
    hide FourDigits;
    FourDigitsShift(s, k);
    forall j | 0 <= j < k - 1 ensures !FourDigits(s[1..], j) {
      FourDigitsShift(s, j + 1);
    }
  }

  /** The year roles are sorted by: the first four digits in a row, read as a number. */
  lemma {:induction false} SortYear(s: string, k: nat)
    requires FirstFour(s, k)
    ensures k + 4 <= |s| && StartYear(s) == NumberAt(s, k)
    decreases k
  {
    hide DigitsValue;
    FourDigitsIff(s, 0);
    if k == 0 {
      FourDigitNumber(s[..4]);
    } else {
      FirstShift(s, k);
      SortYear(s[1..], k - 1);
      assert !FourDigits(s, 0);
    }
  }

  /** Without four digits in a row a role sorts last. */
  lemma {:induction false} NoSortYear(s: string)
    requires forall k :: 0 <= k < |s| ==> !FourDigits(s, k)
    ensures StartYear(s) == 0
  {
    if |s| >= 4 {
      FourDigitsIff(s, 0);
      forall k | 0 <= k < |s| - 1 ensures !FourDigits(s[1..], k) {
        FourDigitsShift(s, k + 1);
      }
      NoSortYear(s[1..]);
    }
  }

  lemma FourDigitsIff(s: string, k: nat)
    ensures FourDigitsAt(s, k) <==> FourDigits(s, k)
  {
  }

  lemma FourDigitsShift(s: string, k: nat)
    requires 0 < k < |s|
    ensures FourDigits(s, k) <==> FourDigits(s[1..], k - 1)
  {
    var t := s[1..];
    if k + 4 <= |s| {
      assert t[k - 1] == s[k] && t[k] == s[k + 1] && t[k + 1] == s[k + 2] && t[k + 2] == s[k + 3];
    }
  }

  /** The other roles are those asked for, as many as the cap leaves, and behind them the compacted positions. */
  lemma OtherShown(r: Resume, c: Config, lower: string -> string)
    ensures var once := TailoredResume(r, c, lower).experience.other;
            var asked := Filter(r.experience.other, (role: OtherRole) => RoleAskedFor(role, c, lower));
            var folded := Filter(r.experience.positions, (p: Position) => Lists(c.compactExperienceIds, p.id));
            var left := Left(|asked|, c.maxOtherRoles);
            && left <= |asked|
            && (c.hideOtherExperience ==> once == [])
            && (!c.hideOtherExperience ==> multiset(once) == multiset(asked[..left] + Map(folded, CompactRole)))
            && (!c.hideOtherExperience && folded == [] ==> once == asked[..left])
  {
    hide TailoredPositions;
    hide TailoredGroups;
    hide RoleAskedFor;
    hide KeptOther;
    hide CompactRole;
    var e := r.experience;
    RolesKept(e.other, c, lower);
    FilterCongruent(e.positions, p => IsCompact(p, c), (p: Position) => Lists(c.compactExperienceIds, p.id));
    if !c.hideOtherExperience {
      OtherElements(e, c, lower);
      assert AllOther(e, c, lower) == KeptOther(e.other, c, lower) + CompactedRoles(e.positions, c);
    }
  }

  // ------------------------------------------------------------------ skill groups

  /** The skills a group shows: without excluded ones, those whose id is an emphasised tag first. */
  function SkillsShown(g: SkillCategory, c: Config): seq<Skill> {
    Filter(g.skills, (s: Skill) => !Lists(c.excludeSkillIds, s.id) && Lists(c.emphasizeTags, s.id))
    + Filter(g.skills, (s: Skill) => !Lists(c.excludeSkillIds, s.id) && !Lists(c.emphasizeTags, s.id))
  }

  lemma SkillsAre(g: SkillCategory, c: Config)
    ensures var left := if c.excludeSkillIds.Some? then WithoutSkills(g, SetOf(c.excludeSkillIds)) else g;
            (if SetOf(c.emphasizeTags) == {} then left else EmphasizedFirst(left, SetOf(c.emphasizeTags))) ==
            SkillCategory(g.id, g.caption, SkillsShown(g, c))
  {
    hide EmphasizedFirst;
    var emphasized := SetOf(c.emphasizeTags);
    forall tag: string ensures tag in emphasized <==> Lists(c.emphasizeTags, tag) {
    }
    var left := if c.excludeSkillIds.Some? then WithoutSkills(g, SetOf(c.excludeSkillIds)) else g;
    LeftSkills(g, c);
    FilterFilter(g.skills, (s: Skill) => !Lists(c.excludeSkillIds, s.id), (s: Skill) => s.id in emphasized,
                 (s: Skill) => !Lists(c.excludeSkillIds, s.id) && Lists(c.emphasizeTags, s.id));
    FilterFilter(g.skills, (s: Skill) => !Lists(c.excludeSkillIds, s.id), (s: Skill) => s.id !in emphasized,
                 (s: Skill) => !Lists(c.excludeSkillIds, s.id) && !Lists(c.emphasizeTags, s.id));
    if emphasized == {} {
      FilterAll(left.skills, (s: Skill) => s.id !in emphasized);
      FilterNone(left.skills, (s: Skill) => s.id in emphasized);
    } else {
      EmphasizedIsSplit(left, emphasized);
      EmphasizedNamed(left, emphasized);
    }
  }

  lemma EmphasizedNamed(g: SkillCategory, emphasized: set<string>)
    ensures EmphasizedFirst(g, emphasized).id == g.id && EmphasizedFirst(g, emphasized).caption == g.caption
  {
  }

  lemma LeftSkills(g: SkillCategory, c: Config)
    ensures var left := if c.excludeSkillIds.Some? then WithoutSkills(g, SetOf(c.excludeSkillIds)) else g;
            left == g.(skills := Filter(g.skills, (s: Skill) => !Lists(c.excludeSkillIds, s.id)))
  {
    if c.excludeSkillIds.None? {
      FilterAll(g.skills, (s: Skill) => !Lists(c.excludeSkillIds, s.id));
    } else {
      FilterCongruent(g.skills, (s: Skill) => s.id !in SetOf(c.excludeSkillIds),
                      (s: Skill) => !Lists(c.excludeSkillIds, s.id));
    }
  }

  /** A group is shown if it is asked for and, where skills are excluded, some are left. */
  predicate GroupShown(g: SkillCategory, c: Config) {
    && (c.includeSkillGroupIds.Some? ==> g.id in c.includeSkillGroupIds.value)
    && (c.excludeSkillIds.Some? ==> exists s :: s in g.skills && s.id !in c.excludeSkillIds.value)
  }

  function Remaining(g: SkillCategory, c: Config): SkillCategory {
    if c.excludeSkillIds.Some? then WithoutSkills(g, SetOf(c.excludeSkillIds)) else g
  }

  predicate GroupListed(g: SkillCategory, c: Config) {
    c.includeSkillGroupIds.Some? ==> g.id in c.includeSkillGroupIds.value
  }

  predicate GroupLeft(g: SkillCategory, c: Config) {
    c.excludeSkillIds.Some? ==> HasSkills(Remaining(g, c))
  }

  lemma GroupShownIff(g: SkillCategory, c: Config)
    ensures GroupShown(g, c) <==> GroupListed(g, c) && GroupLeft(g, c)
  {
    if c.excludeSkillIds.Some? {
      var left := Remaining(g, c).skills;
      if left != [] {
        assert left[0] in left;
      }
    }
  }

  lemma GroupsReduced(groups: seq<SkillCategory>, c: Config)
    ensures ReducedGroups(IncludedGroups(groups, c), c) ==
            Map(Filter(groups, (g: SkillCategory) => GroupShown(g, c)), g => Remaining(g, c))
  {
    hide GroupShown;
    hide WithoutSkills;
    hide SetOf;
    var listed, shown := IncludedGroups(groups, c), Filter(groups, (g: SkillCategory) => GroupShown(g, c));
    forall g: SkillCategory ensures GroupShown(g, c) <==> GroupListed(g, c) && GroupLeft(g, c) {
      GroupShownIff(g, c);
    }
    if c.includeSkillGroupIds.None? {
      FilterAll(groups, g => GroupListed(g, c));
    } else {
      FilterCongruent(groups, (g: SkillCategory) => g.id in c.includeSkillGroupIds.value, g => GroupListed(g, c));
    }
    assert listed == Filter(groups, g => GroupListed(g, c));
    FilterFilter(groups, g => GroupListed(g, c), g => GroupLeft(g, c), (g: SkillCategory) => GroupShown(g, c));
    if c.excludeSkillIds.None? {
      FilterAll(listed, g => GroupLeft(g, c));
      assert Map(shown, g => Remaining(g, c)) == shown;
    } else {
      FilterMap(listed, g => WithoutSkills(g, SetOf(c.excludeSkillIds)), g => GroupLeft(g, c), HasSkills);
      assert Map(shown, g => Remaining(g, c)) == Map(shown, g => WithoutSkills(g, SetOf(c.excludeSkillIds)));
    }
  }

  lemma MapTwice<T, U, V>(s: seq<T>, f: T -> U, g: U -> V, both: T -> V)
    requires forall x :: x in s ==> both(x) == g(f(x))
    ensures Map(Map(s, f), g) == Map(s, both)
  {
  }

  lemma GroupsAre(groups: seq<SkillCategory>, c: Config)
    ensures TailoredGroups(groups, c) ==
            Map(Filter(groups, (g: SkillCategory) => GroupShown(g, c)),
                (g: SkillCategory) => SkillCategory(g.id, g.caption, SkillsShown(g, c)))
  {
    hide ReducedGroups;
    hide IncludedGroups;
    hide GroupShown;
    hide EmphasizedFirst;
    hide Remaining;
    hide SkillsShown;
    hide SetOf;
    var shown, emphasized := Filter(groups, (g: SkillCategory) => GroupShown(g, c)), SetOf(c.emphasizeTags);
    GroupsReduced(groups, c);
    var named := (g: SkillCategory) => SkillCategory(g.id, g.caption, SkillsShown(g, c));
    forall g: SkillCategory
      ensures named(g) == if emphasized == {} then Remaining(g, c) else EmphasizedFirst(Remaining(g, c), emphasized)
    {
      RemainingIs(g, c);
    }
    if emphasized == {} {
      assert Map(shown, g => Remaining(g, c)) == Map(shown, named);
    } else {
      MapTwice(shown, g => Remaining(g, c), g => EmphasizedFirst(g, emphasized), named);
    }
  }

  lemma RemainingIs(g: SkillCategory, c: Config)
    ensures SkillCategory(g.id, g.caption, SkillsShown(g, c)) ==
            if SetOf(c.emphasizeTags) == {} then Remaining(g, c)
            else EmphasizedFirst(Remaining(g, c), SetOf(c.emphasizeTags))
  {
    hide SetOf;
    hide EmphasizedFirst;
    hide WithoutSkills;
    hide SkillsShown;
    SkillsAre(g, c);
  }

  /** The groups shown, in order, each with its skills. */
  lemma GroupsShown(r: Resume, c: Config, lower: string -> string)
    ensures TailoredResume(r, c, lower).groups ==
            Map(Filter(r.groups, (g: SkillCategory) => GroupShown(g, c)),
                (g: SkillCategory) => SkillCategory(g.id, g.caption, SkillsShown(g, c)))
  {
    hide TailoredPositions;
    hide TailoredOther;
    hide TailoredEducation;
    hide TailoredGroups;
    GroupsAre(r.groups, c);
  }
}
