/**
 What a posting says about where the work may be done: a scan of its lines, section by section, and the decision
 drawn from it. The English-language patterns are parameters.
 */
module Eligibility {
  import opened Sequences
  import opened JsText

  datatype Kind =
    | CanadaSupported | WorldwideSupported | CanadaExcluded | UsResidenceRequired | RegionRestricted
    | ConditionalGeography | SponsorshipOffered | SponsorshipDenied | ConditionalSponsorship | EorOffered | EorDenied
    | AuthorizationUsRequired | AuthorizationCanadaRequired

  datatype SectionKind = Summary | Boilerplate | Qualifications | Location
  datatype Section = Section(kind: SectionKind, start: nat)

  datatype Assertion =
    | OfLocation(kind: Kind, excerpt: string)
    | OfClause(kind: Kind, excerpt: string, section: Section, line: nat, condition: Option<string>)

  datatype Payload = Payload(fingerprint: string, version: int, assertions: seq<Assertion>)

  /** A record's captured source; `lines` are the lines of its text, without markup and blank lines. */
  datatype Posting = Posting(
    fingerprint: string, version: int, textLength: nat, lines: seq<string>, location: string)

  datatype Country = Canada | UnitedStates | UnitedKingdom

  datatype Patterns = Patterns(
    inlineBoilerplate: string -> bool, boilerplateHeading: string -> bool, heading: string -> bool,
    qualificationsWord: string -> bool,
    clauses: string -> seq<string>,
    canada: string -> bool, us: string -> bool, province: string -> bool, role: string -> bool, world: string -> bool,
    qualifier: string -> bool, sponsorCondition: string -> bool, country: string -> bool,
    canadaDenied: string -> bool, usRequired: string -> bool,
    immigration: string -> bool, visa: string -> bool, denial: string -> bool, offered: string -> bool,
    eor: string -> bool, eorDenied: string -> bool, eorOffered: string -> bool, authorization: string -> bool,
    remote: string -> bool, remoteCountry: string -> Option<Country>)

  const MAX_TEXT := 200000
  const MAX_LINES := 2000
  const MAX_LOCATION := 1000
  const MAX_ALTERNATIVES := 20
  const REGION_CONDITION :=
    "Posting specifies a Canadian province or territory; candidate region is not supplied."

  // ---------------------------------------------------------------- the location

  function Alternatives(location: string): seq<string> {
    Filter(Map(Split(location, c => c == ';'), Trim), NonEmpty)
  }

  function LocationKind(location: string, p: Patterns): Option<Kind> {
    var countries := Map(Alternatives(location), p.remoteCountry);
    if |location| > MAX_LOCATION || |Alternatives(location)| > MAX_ALTERNATIVES then None
    else if p.remote(location) && p.canada(location) && p.province(location) then Some(RegionRestricted)
    else if Some(Canada) in countries then
      if p.qualifier(location) then Some(ConditionalGeography) else Some(CanadaSupported)
    else if countries != [] && forall c :: c in countries ==> c == Some(UnitedStates) then Some(UsResidenceRequired)
    else None
  }

  function LocationAssertions(location: string, p: Patterns): seq<Assertion> {
    var kind := LocationKind(location, p);
    if kind.Some? then [OfLocation(kind.value, location)] else []
  }

  // ------------------------------------------------------------------ one clause

  datatype Finding = Finding(kind: Kind, condition: Option<string>)

  predicate InRole(clause: string, section: SectionKind, p: Patterns) {
    p.role(clause) || section == Location
  }

  predicate InCountryScope(clause: string, section: SectionKind, p: Patterns) {
    InRole(clause, section, p) && p.country(clause)
  }

  function GeographyFindings(clause: string, section: SectionKind, p: Patterns): seq<Finding> {
    if !InCountryScope(clause, section, p) then []
    else if p.canada(clause) && p.canadaDenied(clause) then [Finding(CanadaExcluded, None)]
    else if p.canada(clause) || p.world(clause) then
      if p.province(clause) then [Finding(RegionRestricted, Some(REGION_CONDITION))]
      else if p.qualifier(clause) then [Finding(ConditionalGeography, Some(clause))]
      else [Finding(if p.canada(clause) then CanadaSupported else WorldwideSupported, None)]
    else []
  }

  function ResidenceFindings(clause: string, section: SectionKind, p: Patterns): seq<Finding> {
    if InCountryScope(clause, section, p) && p.us(clause) && !p.canada(clause) && p.usRequired(clause)
    then [Finding(UsResidenceRequired, None)]
    else []
  }

  function SponsorshipFindings(clause: string, p: Patterns): seq<Finding> {
    if p.immigration(clause) && p.denial(clause) then [Finding(SponsorshipDenied, None)]
    else if p.visa(clause) && p.offered(clause) then
      if p.qualifier(clause) || p.sponsorCondition(clause)
      then [Finding(ConditionalSponsorship, Some(clause))]
      else [Finding(SponsorshipOffered, None)]
    else []
  }

  function EorFindings(clause: string, p: Patterns): seq<Finding> {
    if !p.eor(clause) then []
    else if p.eorDenied(clause) then [Finding(EorDenied, None)]
    else if p.eorOffered(clause) then [Finding(EorOffered, None)]
    else []
  }

  function AuthorizationFindings(clause: string, section: SectionKind, p: Patterns): seq<Finding> {
    if (InRole(clause, section, p) || section == Qualifications) && p.authorization(clause) then
      (if p.us(clause) then [Finding(AuthorizationUsRequired, None)] else [])
      + (if p.canada(clause) then [Finding(AuthorizationCanadaRequired, None)] else [])
    else []
  }

  /** What one clause asserts, in the order it is recorded. */
  function Findings(clause: string, section: SectionKind, p: Patterns): seq<Finding> {
    GeographyFindings(clause, section, p) + ResidenceFindings(clause, section, p) + SponsorshipFindings(clause, p)
    + EorFindings(clause, p) + AuthorizationFindings(clause, section, p)
  }

  // ---------------------------------------------------------------- lines, sections

  datatype LineKind = Skipped | Heads(kind: SectionKind) | Body

  function LineKindOf(line: string, p: Patterns): LineKind {
    if p.inlineBoilerplate(line) then Skipped
    else if p.boilerplateHeading(line) then Heads(Boilerplate)
    else if p.heading(line) then Heads(if p.qualificationsWord(line) then Qualifications else Location)
    else Body
  }

  const FIRST_SECTION := Section(Summary, 1)

  /** The section in force behind the first `n` lines. */
  function SectionAfter(lines: seq<string>, n: nat, p: Patterns): Section
    requires n <= |lines|
  {
    if n == 0 then FIRST_SECTION
    else
      var kind := LineKindOf(lines[n - 1], p);
      if kind.Heads? then Section(kind.kind, n) else SectionAfter(lines, n - 1, p)
  }

  predicate IsScanned(line: string, section: SectionKind, p: Patterns) {
    LineKindOf(line, p) == Body && section != Boilerplate
  }

  function Assert(clause: string, section: Section, index: nat, f: Finding): Assertion {
    OfClause(f.kind, clause, section, index + 1, f.condition)
  }

  function ClauseAssertions(clause: string, section: Section, index: nat, p: Patterns): seq<Assertion> {
    Map(Findings(clause, section.kind, p), f => Assert(clause, section, index, f))
  }

  function ClausesAssertions(clauses: seq<string>, section: Section, index: nat, p: Patterns): seq<Assertion> {
    if clauses == [] then []
    else
      var n := |clauses| - 1;
      ClausesAssertions(clauses[..n], section, index, p) + ClauseAssertions(clauses[n], section, index, p)
  }

  /** Keeps the first occurrence of every element. */
  function Firsts<T(==)>(s: seq<T>): seq<T> {
    if s == [] then []
    else
      var n := |s| - 1;
      var init := Firsts(s[..n]);
      if s[n] in init then init else init + [s[n]]
  }

  function LineAssertions(line: string, section: Section, index: nat, p: Patterns): seq<Assertion> {
    if IsScanned(line, section.kind, p) then Firsts(ClausesAssertions(p.clauses(line), section, index, p)) else []
  }

  function LinesAssertions(lines: seq<string>, n: nat, p: Patterns): seq<Assertion>
    requires n <= |lines|
  {
    if n == 0 then []
    else LinesAssertions(lines, n - 1, p) + LineAssertions(lines[n - 1], SectionAfter(lines, n - 1, p), n - 1, p)
  }

  predicate WithinBounds(posting: Posting) {
    && posting.fingerprint != "" && posting.version >= 1
    && posting.textLength <= MAX_TEXT && |posting.lines| <= MAX_LINES
  }

  function Assertions(posting: Posting, p: Patterns): seq<Assertion> {
    if WithinBounds(posting)
    then LocationAssertions(posting.location, p) + LinesAssertions(posting.lines, |posting.lines|, p)
    else []
  }

  function Built(posting: Posting, p: Patterns): Payload {
    Payload(posting.fingerprint, posting.version, Assertions(posting, p))
  }

  // -------------------------------------------------------------------- the loop

  datatype SeenKey = SeenKey(kind: Kind, index: nat, clause: string)

  function KeyOf(a: Assertion): SeenKey {
    match a
    case OfLocation(kind, excerpt) => SeenKey(kind, 0, excerpt)
    case OfClause(kind, excerpt, _, line, _) => SeenKey(kind, line, excerpt)
  }

  /** A clause assertion of this line and section, carrying the one condition its kind can have. */
  predicate FromLine(a: Assertion, section: Section, index: nat) {
    a.OfClause? && a.section == section && a.line == index + 1 && a.condition == ConditionOf(a.kind, a.excerpt)
  }

  function ConditionOf(kind: Kind, clause: string): Option<string> {
    match kind
    case RegionRestricted => Some(REGION_CONDITION)
    case ConditionalGeography => Some(clause)
    case ConditionalSponsorship => Some(clause)
    case _ => None
  }

  lemma KeyDecides(a: Assertion, b: Assertion, section: Section, index: nat)
    requires FromLine(a, section, index) && FromLine(b, section, index) && KeyOf(a) == KeyOf(b)
    ensures a == b
  {
  }

  predicate Conditioned(findings: seq<Finding>, clause: string) {
    forall f :: f in findings ==> f.condition == ConditionOf(f.kind, clause)
  }

  lemma GroupsConditioned(clause: string, section: SectionKind, p: Patterns)
    ensures Conditioned(GeographyFindings(clause, section, p), clause)
    ensures Conditioned(ResidenceFindings(clause, section, p), clause)
    ensures Conditioned(SponsorshipFindings(clause, p), clause)
    ensures Conditioned(EorFindings(clause, p), clause)
    ensures Conditioned(AuthorizationFindings(clause, section, p), clause)
  {
    hide InCountryScope;
    hide InRole;
  }

  lemma FindingsConditioned(clause: string, section: SectionKind, p: Patterns)
    ensures Conditioned(Findings(clause, section, p), clause)
  {
    hide GeographyFindings;
    hide ResidenceFindings;
    hide SponsorshipFindings;
    hide EorFindings;
    hide AuthorizationFindings;
    GroupsConditioned(clause, section, p);
  }

  ghost predicate AllFromLine(assertions: seq<Assertion>, section: Section, index: nat) {
    forall a :: a in assertions ==> FromLine(a, section, index)
  }

  /** Earlier lines, and the location field, have left other keys than line `index` can make. */
  ghost predicate Before(assertions: seq<Assertion>, index: nat) {
    forall a :: a in assertions ==> a.OfLocation? || a.line <= index
  }

  lemma FirstsStep<T>(s: seq<T>, x: T)
    ensures Firsts(s + [x]) == if x in Firsts(s) then Firsts(s) else Firsts(s) + [x]
  {
    assert (s + [x])[..|s|] == s;
  }

  lemma {:induction false} FirstsKeep<T>(s: seq<T>)
    ensures Distinct(Firsts(s))
    ensures forall x :: x in Firsts(s) <==> x in s
  {
    if s == [] {
    } else {
      var n := |s| - 1;
      FirstsKeep(s[..n]);
      DistinctAppend(Firsts(s[..n]), s[n]);
      assert s == s[..n] + [s[n]];
    }
  }

  /** The keys recorded so far: those of the clause assertions. */
  ghost predicate Recorded(seen: set<SeenKey>, assertions: seq<Assertion>) {
    forall key :: key in seen <==> exists a :: a in assertions && a.OfClause? && KeyOf(a) == key
  }

  /** Looking a key up in `seen` tells whether this line has made the assertion before. */
  lemma SeenTells(seen: set<SeenKey>, earlier: seq<Assertion>, here: seq<Assertion>, a: Assertion,
                  section: Section, index: nat)
    requires Recorded(seen, earlier + here) && Before(earlier, index)
    requires AllFromLine(here, section, index) && FromLine(a, section, index)
    ensures KeyOf(a) in seen <==> a in here
  {
    if a in here {
      assert a in earlier + here;
    }
    if KeyOf(a) in seen {
      var b :| b in earlier + here && b.OfClause? && KeyOf(b) == KeyOf(a);
      assert b in here;
      KeyDecides(a, b, section, index);
    }
  }

  lemma RecordedStep(seen: set<SeenKey>, assertions: seq<Assertion>, a: Assertion)
    requires Recorded(seen, assertions) && a.OfClause?
    ensures Recorded(seen + {KeyOf(a)}, assertions + [a])
  {
    forall key ensures key in seen + {KeyOf(a)} <==>
                       exists b :: b in assertions + [a] && b.OfClause? && KeyOf(b) == key
    {
      if key == KeyOf(a) {
        assert a in assertions + [a];
      } else if key in seen {
        var b :| b in assertions && b.OfClause? && KeyOf(b) == key;
        assert b in assertions + [a];
      }
    }
  }

  class Scanner {
    var assertions: seq<Assertion>
    var seen: set<SeenKey>
    const patterns: Patterns

    constructor (assertions: seq<Assertion>, patterns: Patterns)
      requires forall a :: a in assertions ==> a.OfLocation?
      ensures this.assertions == assertions && this.patterns == patterns
      ensures Recorded(seen, this.assertions)
    {
      this.assertions, this.seen, this.patterns := assertions, {}, patterns;
    }

    /** This line has recorded exactly the first occurrences among `made`. */
    ghost predicate Reached(earlier: seq<Assertion>, made: seq<Assertion>, section: Section, index: nat)
      reads this
    {
      && Recorded(seen, assertions)
      && Before(earlier, index)
      && AllFromLine(made, section, index)
      && assertions == earlier + Firsts(made)
    }

    /** Records an assertion of the clause unless its key was seen. */
    method Add(clause: string, section: Section, index: nat, kind: Kind, condition: Option<string>,
               ghost earlier: seq<Assertion>, ghost made: seq<Assertion>)
      requires Reached(earlier, made, section, index)
      requires condition == ConditionOf(kind, clause)
      modifies this
      ensures Reached(earlier, made + [OfClause(kind, clause, section, index + 1, condition)], section, index)
    {
      hide Firsts;
      var a := OfClause(kind, clause, section, index + 1, condition);
      FirstsKeep(made);
      FirstsStep(made, a);
      SeenTells(seen, earlier, Firsts(made), a, section, index);
      var key := SeenKey(kind, index + 1, clause);
      if key in seen {
        return;
      }
      RecordedStep(seen, assertions, a);
      seen := seen + {key};
      assertions := assertions + [a];
      assert earlier + Firsts(made) + [a] == earlier + (Firsts(made) + [a]);
    }

    method AddAll(clause: string, section: Section, index: nat, findings: seq<Finding>,
                  ghost earlier: seq<Assertion>, ghost made: seq<Assertion>)
      requires Reached(earlier, made, section, index)
      requires Conditioned(findings, clause)
      modifies this
      ensures Reached(earlier, made + Map(findings, f => Assert(clause, section, index, f)), section, index)
    {
      hide Scanner.Reached;
      ghost var f := (x: Finding) => Assert(clause, section, index, x);
      assert made + Map(findings[..0], f) == made;
      for i := 0 to |findings|
        invariant Reached(earlier, made + Map(findings[..i], f), section, index)
      {
        assert findings[..i + 1] == findings[..i] + [findings[i]];
        MapAppend(findings[..i], [findings[i]], f);
        assert Map([findings[i]], f) == [f(findings[i])];
        assert made + Map(findings[..i + 1], f) == made + Map(findings[..i], f) + [f(findings[i])];
        Add(clause, section, index, findings[i].kind, findings[i].condition,
            earlier, made + Map(findings[..i], f));
      }
      assert findings[..|findings|] == findings;
    }

    /** Scans the clauses of one line. */
    method ScanLine(line: string, section: Section, index: nat)
      requires Recorded(seen, assertions) && Before(assertions, index)
      modifies this
      ensures Recorded(seen, assertions)
      ensures assertions ==
              old(assertions) + Firsts(ClausesAssertions(patterns.clauses(line), section, index, patterns))
    {
      hide Recorded;
      hide Before;
      hide Findings;
      var clauses := patterns.clauses(line);
      ghost var earlier := assertions;
      assert Firsts<Assertion>([]) == [];
      for k := 0 to |clauses|
        invariant Reached(earlier, ClausesAssertions(clauses[..k], section, index, patterns), section, index)
      {
        FindingsConditioned(clauses[k], section.kind, patterns);
        assert clauses[..k + 1][..k] == clauses[..k];
        AddAll(clauses[k], section, index, Findings(clauses[k], section.kind, patterns),
               earlier, ClausesAssertions(clauses[..k], section, index, patterns));
      }
      assert clauses[..|clauses|] == clauses;
    }

    /** Follows the headings and scans the lines outside boilerplate. */
    method ScanLines(lines: seq<string>)
      requires Recorded(seen, assertions) && Before(assertions, 0)
      modifies this
      ensures assertions == old(assertions) + LinesAssertions(lines, |lines|, patterns)
    {
      hide Recorded;
      hide Firsts;
      hide ClausesAssertions;
      hide Before;
      hide AllFromLine;
      hide SectionAfter;
      hide LinesAssertions;
      hide LineAssertions;
      ScanStart(lines, patterns);
      var section := FIRST_SECTION;
      for index := 0 to |lines|
        invariant Recorded(seen, assertions) && Before(assertions, index)
        invariant section == SectionAfter(lines, index, patterns)
        invariant assertions == old(assertions) + LinesAssertions(lines, index, patterns)
      {
        var line := lines[index];
        LineAssertionsHere(line, section, index, patterns);
        ScanStep(lines, index, patterns);
        ghost var made := ClausesAssertions(patterns.clauses(line), section, index, patterns);
        BeforeStep(assertions, Firsts(made), section, index);
        if patterns.inlineBoilerplate(line) {
          continue;
        }
        if patterns.boilerplateHeading(line) {
          section := Section(Boilerplate, index + 1);
          continue;
        }
        if patterns.heading(line) {
          section := Section(if patterns.qualificationsWord(line) then Qualifications else Location, index + 1);
          continue;
        }
        if section.kind == Boilerplate {
          continue;
        }
        ScanLine(line, section, index);
      }
    }
  }

  lemma ScanStart(lines: seq<string>, p: Patterns)
    ensures SectionAfter(lines, 0, p) == FIRST_SECTION && LinesAssertions(lines, 0, p) == []
  {
  }

  /** What one line does to the section and to the assertions, by the order of the tests. */
  lemma ScanStep(lines: seq<string>, index: nat, p: Patterns)
    requires index < |lines|
    ensures var line, section := lines[index], SectionAfter(lines, index, p);
            var heads := LineKindOf(line, p).Heads?;
            && SectionAfter(lines, index + 1, p) ==
               (if heads then Section(LineKindOf(line, p).kind, index + 1) else section)
            && LinesAssertions(lines, index + 1, p) ==
               LinesAssertions(lines, index, p) +
               if LineKindOf(line, p) == Body && section.kind != Boilerplate
               then Firsts(ClausesAssertions(p.clauses(line), section, index, p)) else []
  {
    hide Firsts;
    hide ClausesAssertions;
    hide LineKindOf;
  }

  lemma BeforeStep(earlier: seq<Assertion>, here: seq<Assertion>, section: Section, index: nat)
    requires Before(earlier, index) && AllFromLine(here, section, index)
    ensures Before(earlier, index + 1) && Before(earlier + here, index + 1)
  {
  }

  lemma {:induction false} ClausesFromLine(clauses: seq<string>, section: Section, index: nat, p: Patterns)
    ensures AllFromLine(ClausesAssertions(clauses, section, index, p), section, index)
  {
    hide Findings;
    if clauses == [] {
    } else {
      var n := |clauses| - 1;
      ClausesFromLine(clauses[..n], section, index, p);
      FindingsConditioned(clauses[n], section.kind, p);
      var findings := Findings(clauses[n], section.kind, p);
      forall a | a in ClauseAssertions(clauses[n], section, index, p) ensures FromLine(a, section, index) {
        var k :| 0 <= k < |findings| && a == Assert(clauses[n], section, index, findings[k]);
        assert findings[k] in findings;
      }
    }
  }

  lemma LineAssertionsHere(line: string, section: Section, index: nat, p: Patterns)
    ensures AllFromLine(LineAssertions(line, section, index, p), section, index)
    ensures AllFromLine(Firsts(ClausesAssertions(p.clauses(line), section, index, p)), section, index)
    ensures Distinct(LineAssertions(line, section, index, p))
  {
    ClausesFromLine(p.clauses(line), section, index, p);
    FirstsKeep(ClausesAssertions(p.clauses(line), section, index, p));
  }

  method BuildOpportunityEligibility(posting: Posting, patterns: Patterns) returns (payload: Payload)
    ensures payload == Built(posting, patterns)
  {
    payload := Payload(posting.fingerprint, posting.version, []);
    if payload.fingerprint == "" || payload.version < 1 || posting.textLength > MAX_TEXT {
      return;
    }
    if |posting.lines| > MAX_LINES {
      return;
    }
    var scanner := new Scanner(LocationAssertions(posting.location, patterns), patterns);
    scanner.ScanLines(posting.lines);
    payload := Payload(posting.fingerprint, posting.version, scanner.assertions);
  }
}
