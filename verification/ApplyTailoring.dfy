/** Tailoring a whole resume, section by section, and what tailoring it a second time does. */
module ApplyTailoring {
  import opened Sequences
  import opened JsText
  import opened Tailoring
  import S = StableSort

  // ---------------------------------------------------------------- positions

  predicate Included(key: string, allowed: Option<seq<string>>, denied: Option<seq<string>>) {
    (allowed.Some? ==> key in allowed.value) && !(denied.Some? && key in denied.value)
  }

  function Either<T>(first: Option<T>, second: Option<T>): Option<T> {
    if first.Some? then first else second
  }

  predicate IsCompact(p: Position, c: Config) {
    p.id in SetOf(c.compactExperienceIds)
  }

  predicate IsIncluded(p: Position, c: Config) {
    Included(p.id, Either(c.includeExperienceIds, c.includePositionIds),
             Either(c.excludeExperienceIds, c.excludePositionIds))
  }

  function TailoredDuties(duties: Option<seq<Duty>>, c: Config): Option<seq<Duty>> {
    if c.includeDuties == Some(false) then Some([]) else duties
  }

  function TailorProject(project: Project, positionId: string, c: Config): Project {
    project.(
      duties := TailoredDuties(project.duties, c),
      achievements := Tailored(
        project.achievements, RulesFor(c, [project.id, positionId]),
        Either(c.maxAchievementsPerProject, c.maxAchievementsPerPosition)))
  }

  predicate ProjectIncluded(project: Project, c: Config) {
    Included(project.id, c.includeProjectIds, c.excludeProjectIds)
  }

  function ChosenProjects(p: Position, c: Config): seq<Project> {
    Capped(Filter(if p.projects.Some? then p.projects.value else [], x => ProjectIncluded(x, c)),
           c.maxProjectsPerPosition)
  }

  function TailorPosition(p: Position, c: Config): Position {
    p.(
      duties := TailoredDuties(p.duties, c),
      projects := Some(Map(ChosenProjects(p, c), x => TailorProject(x, p.id, c))),
      achievements := Tailored(p.achievements, RulesFor(c, [p.id]), c.maxAchievementsPerPosition))
  }

  predicate HasDuties(duties: Option<seq<Duty>>) {
    duties.Some? && duties.value != []
  }

  predicate Renderable(p: Position) {
    || p.achievements != []
    || HasDuties(p.duties)
    || (p.projects.Some? && exists x :: x in p.projects.value && (x.achievements != [] || HasDuties(x.duties)))
  }

  function KeptPositions(positions: seq<Position>, c: Config): seq<Position> {
    Filter(Filter(positions, p => IsIncluded(p, c)), p => !IsCompact(p, c))
  }

  function TailoredPositions(positions: seq<Position>, c: Config): seq<Position> {
    Filter(Map(KeptPositions(positions, c), p => TailorPosition(p, c)), Renderable)
  }

  // --------------------------------------------------------------- other roles

  function NormalCompanies(companies: seq<string>, lower: string -> string): seq<string> {
    Map(companies, (company: string) => lower(Trim(company)))
  }

  predicate OtherKept(role: OtherRole, c: Config, lower: string -> string) {
    var company := lower(Trim(role.company));
    && (c.includeOtherCompanies.Some? ==> company in NormalCompanies(c.includeOtherCompanies.value, lower))
    && !(c.excludeOtherCompanies.Some? && company in NormalCompanies(c.excludeOtherCompanies.value, lower))
    && !HasAnyOptionalTag(role.tags, SetOf(c.excludeTags))
  }

  predicate FourDigitsAt(s: string, i: nat) {
    i + 4 <= |s| && forall k :: i <= k < i + 4 ==> IsDigit(s[k])
  }

  function DigitsValue(s: string): int {
    if s == "" then 0 else 10 * DigitsValue(s[..|s| - 1]) + (s[|s| - 1] as int - '0' as int)
  }

  /** The first run of four digits in a period, as a number; 0 without one. */
  function StartYear(period: string): int {
    if |period| < 4 then 0
    else if FourDigitsAt(period, 0) then DigitsValue(period[..4])
    else StartYear(period[1..])
  }

  /** Four digits at the start or behind white space, followed by a dash or the end. */
  predicate YearAt(s: string, i: nat) {
    && FourDigitsAt(s, i)
    && (i == 0 || IsSpace(s[i - 1]))
    && (i + 4 == |s| || s[i + 4] == '-')
  }

  function YearFrom(s: string, i: nat): string
    requires i <= |s|
    decreases |s| - i
  {
    if i == |s| then s
    else if YearAt(s, i) then s[i..i + 4]
    else YearFrom(s, i + 1)
  }

  function YearOf(s: string): string {
    YearFrom(s, 0)
  }

  function CompactRole(p: Position): OtherRole {
    OtherRole(p.role, p.company, YearOf(p.start) + "\U{2013}" + YearOf(p.end), p.blurb, p.tags)
  }

  function ByYear(): S.Comparator<OtherRole> {
    (a: OtherRole, b: OtherRole) => (StartYear(b.period) - StartYear(a.period)) as real
  }

  function CompactedRoles(positions: seq<Position>, c: Config): seq<OtherRole> {
    Map(Filter(positions, p => IsCompact(p, c)), CompactRole)
  }

  function KeptOther(other: seq<OtherRole>, c: Config, lower: string -> string): seq<OtherRole> {
    Capped(Filter(other, role => OtherKept(role, c, lower)), c.maxOtherRoles)
  }

  function TailoredOther(e: Experience, c: Config, lower: string -> string): seq<OtherRole> {
    if c.hideOtherExperience then []
    else if CompactedRoles(e.positions, c) == [] then KeptOther(e.other, c, lower)
    else S.Sort(ByYear(), KeptOther(e.other, c, lower) + CompactedRoles(e.positions, c))
  }

  // -------------------------------------------------- skills and whole resumes

  predicate HasSkills(g: SkillCategory) { g.skills != [] }

  function CompareSkills(emphasized: set<string>): S.Comparator<Skill> {
    (a: Skill, b: Skill) => (Indicator(b.id in emphasized) - Indicator(a.id in emphasized)) as real
  }

  function WithoutSkills(g: SkillCategory, excluded: set<string>): SkillCategory {
    g.(skills := Filter(g.skills, (s: Skill) => s.id !in excluded))
  }

  function EmphasizedFirst(g: SkillCategory, emphasized: set<string>): SkillCategory {
    g.(skills := S.Sort(CompareSkills(emphasized), g.skills))
  }

  function IncludedGroups(groups: seq<SkillCategory>, c: Config): seq<SkillCategory> {
    if c.includeSkillGroupIds.None? then groups
    else Filter(groups, (g: SkillCategory) => g.id in c.includeSkillGroupIds.value)
  }

  function ReducedGroups(groups: seq<SkillCategory>, c: Config): seq<SkillCategory> {
    if c.excludeSkillIds.None? then groups
    else Filter(Map(groups, g => WithoutSkills(g, SetOf(c.excludeSkillIds))), HasSkills)
  }

  function OrderedGroups(groups: seq<SkillCategory>, c: Config): seq<SkillCategory> {
    if SetOf(c.emphasizeTags) == {} then groups
    else Map(groups, g => EmphasizedFirst(g, SetOf(c.emphasizeTags)))
  }

  function TailoredGroups(groups: seq<SkillCategory>, c: Config): seq<SkillCategory> {
    OrderedGroups(ReducedGroups(IncludedGroups(groups, c), c), c)
  }

  function TailoredEducation(education: seq<Education>, c: Config): seq<Education> {
    Filter(education, (x: Education) => Included(x.title, c.includeEducationTitles, c.excludeEducationTitles))
  }

  function Override(value: Option<string>, standard: string): string {
    if value.Some? && value.value != "" then value.value else standard
  }

  function TailoredProfile(p: Profile, c: Config): Profile {
    p.(title := Override(c.title, p.title), summary := Override(c.summary, p.summary))
  }

  function TailoredResume(r: Resume, c: Config, lower: string -> string): Resume {
    Resume(
      TailoredProfile(r.profile, c),
      Experience(
        TailoredPositions(r.experience.positions, c), TailoredOther(r.experience, c, lower),
        TailoredEducation(r.experience.education, c)),
      TailoredGroups(r.groups, c))
  }

  /** Works on copies, section by section; without a configuration nothing changes. */
  method ApplyTailoring(resume: Resume, config: Option<Config>, lower: string -> string) returns (tailored: Resume)
    ensures tailored == if config.None? then resume else TailoredResume(resume, config.value, lower)
  {
    hide TailoredPositions;
    hide CompactedRoles;
    hide KeptOther;
    tailored := resume;
    if config.None? {
      return;
    }
    var c := config.value;
    var profile, experience := resume.profile, resume.experience;
    if c.title.Some? && c.title.value != "" {
      profile := profile.(title := c.title.value);
    }
    if c.summary.Some? && c.summary.value != "" {
      profile := profile.(summary := c.summary.value);
    }
    experience := experience.(education := TailoredEducation(experience.education, c));
    var compacted := CompactedRoles(experience.positions, c);
    experience := experience.(positions := TailoredPositions(experience.positions, c));
    if c.hideOtherExperience {
      experience := experience.(other := []);
    } else {
      experience := experience.(other := KeptOther(experience.other, c, lower));
    }
    if compacted != [] && !c.hideOtherExperience {
      experience := experience.(other := S.Sort(ByYear(), experience.other + compacted));
    }
    tailored := Resume(profile, experience, TailoredGroups(resume.groups, c));
  }
}
