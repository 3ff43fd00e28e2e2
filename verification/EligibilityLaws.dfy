/** Eligibility read off the clauses: for every kind of assertion, exactly which clause or location makes it. */
module EligibilityLaws {
  import opened Sequences
  import opened JsText
  import opened Eligibility
  import opened EligibilityTheorems
  import opened EligibilityDecision

  // ------------------------------------------------------------------ one clause

  /** The clause speaks about where the role is done, by its words or by its section. */
  predicate AboutCountry(clause: string, section: SectionKind, p: Patterns) {
    p.country(clause) && (p.role(clause) || section == Location)
  }

  /** A country is named as a place to work from: Canada without denial, or the whole world. */
  predicate NamesCountry(clause: string, section: SectionKind, p: Patterns) {
    && AboutCountry(clause, section, p)
    && (if p.canada(clause) then !p.canadaDenied(clause) else p.world(clause))
  }

  predicate OffersVisa(clause: string, p: Patterns) {
    p.visa(clause) && p.offered(clause) && !(p.immigration(clause) && p.denial(clause))
  }

  predicate DemandsAuthorization(clause: string, section: SectionKind, p: Patterns) {
    p.authorization(clause) && (p.role(clause) || section == Location || section == Qualifications)
  }

  /** The clause makes an assertion of this kind. */
  predicate Makes(kind: Kind, clause: string, section: SectionKind, p: Patterns) {
    match kind
    case CanadaSupported =>
      NamesCountry(clause, section, p) && p.canada(clause) && !p.province(clause) && !p.qualifier(clause)
    case WorldwideSupported =>
      NamesCountry(clause, section, p) && !p.canada(clause) && !p.province(clause) && !p.qualifier(clause)
    case CanadaExcluded => AboutCountry(clause, section, p) && p.canada(clause) && p.canadaDenied(clause)
    case RegionRestricted => NamesCountry(clause, section, p) && p.province(clause)
    case ConditionalGeography => NamesCountry(clause, section, p) && !p.province(clause) && p.qualifier(clause)
    case UsResidenceRequired =>
      AboutCountry(clause, section, p) && p.us(clause) && p.usRequired(clause) && !p.canada(clause)
    case SponsorshipOffered => OffersVisa(clause, p) && !p.qualifier(clause) && !p.sponsorCondition(clause)
    case SponsorshipDenied => p.immigration(clause) && p.denial(clause)
    case ConditionalSponsorship => OffersVisa(clause, p) && (p.qualifier(clause) || p.sponsorCondition(clause))
    case EorOffered => p.eor(clause) && p.eorOffered(clause) && !p.eorDenied(clause)
    case EorDenied => p.eor(clause) && p.eorDenied(clause)
    case AuthorizationUsRequired => DemandsAuthorization(clause, section, p) && p.us(clause)
    case AuthorizationCanadaRequired => DemandsAuthorization(clause, section, p) && p.canada(clause)
  }

  /** A region carries a fixed remark, a conditional kind its clause, any other nothing. */
  predicate Carries(kind: Kind, clause: string, condition: Option<string>) {
    if kind == RegionRestricted then
      condition == Some("Posting specifies a Canadian province or territory; candidate region is not supplied.")
    else if kind == ConditionalGeography || kind == ConditionalSponsorship then condition == Some(clause)
    else condition == None
  }

  lemma GeographyIff(kind: Kind, condition: Option<string>, clause: string, section: SectionKind, p: Patterns)
    ensures Finding(kind, condition) in GeographyFindings(clause, section, p) <==>
            && kind in {CanadaSupported, WorldwideSupported, CanadaExcluded, RegionRestricted, ConditionalGeography}
            && Makes(kind, clause, section, p) && Carries(kind, clause, condition)
  {
  }

  lemma PlainKinds(clause: string, condition: Option<string>)
    ensures forall kind: Kind ::
              kind != RegionRestricted && kind != ConditionalGeography && kind != ConditionalSponsorship ==>
                (Carries(kind, clause, condition) <==> condition == None)
    ensures Carries(ConditionalSponsorship, clause, condition) <==> condition == Some(clause)
  {
  }

  lemma ResidenceIff(kind: Kind, condition: Option<string>, clause: string, section: SectionKind, p: Patterns)
    ensures Finding(kind, condition) in ResidenceFindings(clause, section, p) <==>
            kind == UsResidenceRequired && Makes(kind, clause, section, p) && Carries(kind, clause, condition)
  {
  }

  lemma SponsorshipIff(kind: Kind, condition: Option<string>, clause: string, section: SectionKind, p: Patterns)
    ensures Finding(kind, condition) in SponsorshipFindings(clause, p) <==>
            && (kind == SponsorshipOffered || kind == SponsorshipDenied || kind == ConditionalSponsorship)
            && Makes(kind, clause, section, p) && Carries(kind, clause, condition)
  {
    hide Carries;
    PlainKinds(clause, condition);
  }

  lemma EorIff(kind: Kind, condition: Option<string>, clause: string, section: SectionKind, p: Patterns)
    ensures Finding(kind, condition) in EorFindings(clause, p) <==>
            && (kind == EorOffered || kind == EorDenied)
            && Makes(kind, clause, section, p) && Carries(kind, clause, condition)
  {
    hide Carries;
    assert EorFindings(clause, p) ==
           if Makes(EorDenied, clause, section, p) then [Finding(EorDenied, None)]
           else if Makes(EorOffered, clause, section, p) then [Finding(EorOffered, None)]
           else [];
    PlainKinds(clause, condition);
  }

  lemma AuthorizationIff(kind: Kind, condition: Option<string>, clause: string, section: SectionKind, p: Patterns)
    ensures Finding(kind, condition) in AuthorizationFindings(clause, section, p) <==>
            && (kind == AuthorizationUsRequired || kind == AuthorizationCanadaRequired)
            && Makes(kind, clause, section, p) && Carries(kind, clause, condition)
  {
    hide Carries;
    PlainKinds(clause, condition);
  }

  /** A clause finds a kind exactly when it makes it, with the condition that kind carries. */
  lemma FoundIff(kind: Kind, condition: Option<string>, clause: string, section: SectionKind, p: Patterns)
    ensures Finding(kind, condition) in Findings(clause, section, p) <==>
            Makes(kind, clause, section, p) && Carries(kind, clause, condition)
  {
    hide Makes;
    hide Carries;
    hide GeographyFindings;
    hide ResidenceFindings;
    hide SponsorshipFindings;
    hide EorFindings;
    hide AuthorizationFindings;
    GeographyIff(kind, condition, clause, section, p);
    ResidenceIff(kind, condition, clause, section, p);
    SponsorshipIff(kind, condition, clause, section, p);
    EorIff(kind, condition, clause, section, p);
    AuthorizationIff(kind, condition, clause, section, p);
    match kind
    case CanadaSupported => case WorldwideSupported => case CanadaExcluded => case UsResidenceRequired =>
    case RegionRestricted => case ConditionalGeography => case SponsorshipOffered => case SponsorshipDenied =>
    case ConditionalSponsorship => case EorOffered => case EorDenied => case AuthorizationUsRequired =>
    case AuthorizationCanadaRequired =>
  }

  /** The place of a kind among the assertions of one clause; kinds of one place exclude each other. */
  function Place(kind: Kind): nat {
    match kind
    case UsResidenceRequired => 1
    case SponsorshipOffered => 2
    case SponsorshipDenied => 2
    case ConditionalSponsorship => 2
    case EorOffered => 3
    case EorDenied => 3
    case AuthorizationUsRequired => 4
    case AuthorizationCanadaRequired => 5
    case _ => 0
  }

  /** Geography first, then residence, sponsorship, employer of record and authorization, at most one of each. */
  lemma FindingsInPlace(clause: string, section: SectionKind, p: Patterns)
    ensures var r := Findings(clause, section, p);
            forall i, j :: 0 <= i < j < |r| ==> Place(r[i].kind) < Place(r[j].kind)
  {
    hide InCountryScope;
    hide InRole;
    var a, b, c := GeographyFindings(clause, section, p), ResidenceFindings(clause, section, p),
                   SponsorshipFindings(clause, p);
    var d, e := EorFindings(clause, p), AuthorizationFindings(clause, section, p);
    assert |a| <= 1 && (a != [] ==> Place(a[0].kind) == 0);
    assert |b| <= 1 && (b != [] ==> Place(b[0].kind) == 1);
    assert |c| <= 1 && (c != [] ==> Place(c[0].kind) == 2);
    assert |d| <= 1 && (d != [] ==> Place(d[0].kind) == 3);
    assert |e| <= 2 && (e != [] ==> Place(e[0].kind) >= 4) && (|e| == 2 ==> Place(e[0].kind) < Place(e[1].kind));
    InPlace(a, b, c, d, e);
  }

  lemma InPlace(a: seq<Finding>, b: seq<Finding>, c: seq<Finding>, d: seq<Finding>, e: seq<Finding>)
    requires |a| <= 1 && |b| <= 1 && |c| <= 1 && |d| <= 1 && |e| <= 2
    requires (a != [] ==> Place(a[0].kind) == 0) && (b != [] ==> Place(b[0].kind) == 1)
    requires (c != [] ==> Place(c[0].kind) == 2) && (d != [] ==> Place(d[0].kind) == 3)
    requires (e != [] ==> Place(e[0].kind) >= 4) && (|e| == 2 ==> Place(e[0].kind) < Place(e[1].kind))
    ensures var r := a + b + c + d + e; forall i, j :: 0 <= i < j < |r| ==> Place(r[i].kind) < Place(r[j].kind)
  {
  }

  // ---------------------------------------------------------- lines and locations

  /** What the scan makes of a line: a heading only if no boilerplate stands in it, text only if it is no heading. */
  lemma LinesRead(line: string, p: Patterns)
    ensures LineKindOf(line, p) == Heads(Boilerplate) <==> p.boilerplateHeading(line) && !p.inlineBoilerplate(line)
    ensures LineKindOf(line, p) == Heads(Qualifications) <==>
            && p.heading(line) && p.qualificationsWord(line)
            && !p.boilerplateHeading(line) && !p.inlineBoilerplate(line)
    ensures LineKindOf(line, p) == Heads(Location) <==>
            && p.heading(line) && !p.qualificationsWord(line)
            && !p.boilerplateHeading(line) && !p.inlineBoilerplate(line)
    ensures LineKindOf(line, p) != Heads(Summary)
    ensures forall section :: IsScanned(line, section, p) <==>
              && section != Boilerplate
              && !p.inlineBoilerplate(line) && !p.boilerplateHeading(line) && !p.heading(line)
  {
  }

  ghost predicate RemoteFrom(location: string, country: Country, p: Patterns) {
    exists place :: place in Alternatives(location) && p.remoteCountry(place) == Some(country)
  }

  ghost predicate RemoteOnlyFrom(location: string, country: Country, p: Patterns) {
    && Alternatives(location) != []
    && forall place :: place in Alternatives(location) ==> p.remoteCountry(place) == Some(country)
  }

  /** A remote location within a Canadian province. */
  predicate Provincial(location: string, p: Patterns) {
    p.remote(location) && p.canada(location) && p.province(location)
  }

  lemma CountriesMean(location: string, p: Patterns)
    ensures var countries := Map(Alternatives(location), p.remoteCountry);
            && (forall country :: Some(country) in countries <==> RemoteFrom(location, country, p))
            && (forall country :: (countries != [] && forall c :: c in countries ==> c == Some(country)) <==>
                  RemoteOnlyFrom(location, country, p))
  {
    hide Alternatives;
    var places := Alternatives(location);
    var countries := Map(places, p.remoteCountry);
    forall i | 0 <= i < |places| ensures countries[i] == p.remoteCountry(places[i]) && places[i] in places {
    }
    forall country ensures Some(country) in countries <==> RemoteFrom(location, country, p) {
      if Some(country) in countries {
        var i :| 0 <= i < |countries| && countries[i] == Some(country);
        assert places[i] in places;
      }
      if RemoteFrom(location, country, p) {
        var place :| place in places && p.remoteCountry(place) == Some(country);
        var i :| 0 <= i < |places| && places[i] == place;
        assert countries[i] in countries;
      }
    }
    forall country
      ensures (countries != [] && forall c :: c in countries ==> c == Some(country)) <==>
              RemoteOnlyFrom(location, country, p)
    {
      if countries != [] && forall c :: c in countries ==> c == Some(country) {
        forall place | place in places ensures p.remoteCountry(place) == Some(country) {
          var i :| 0 <= i < |places| && places[i] == place;
          assert countries[i] in countries;
        }
      }
      if RemoteOnlyFrom(location, country, p) {
        forall c | c in countries ensures c == Some(country) {
          var i :| 0 <= i < |countries| && countries[i] == c;
          assert places[i] in places;
        }
      }
    }
  }

  /** Which kind a location asserts: its province, then Canada among the places, then the United States alone. */
  lemma LocationAsserts(location: string, p: Patterns)
    ensures var kind := LocationKind(location, p);
            var readable := |location| <= 1000 && |Alternatives(location)| <= 20;
            var canada := readable && !Provincial(location, p) && RemoteFrom(location, Canada, p);
            && (kind == Some(RegionRestricted) <==> readable && Provincial(location, p))
            && (kind == Some(CanadaSupported) <==> canada && !p.qualifier(location))
            && (kind == Some(ConditionalGeography) <==> canada && p.qualifier(location))
            && (kind == Some(UsResidenceRequired) <==>
                  readable && !Provincial(location, p) && RemoteOnlyFrom(location, UnitedStates, p))
            && (kind.Some? ==>
                  kind.value in {RegionRestricted, CanadaSupported, ConditionalGeography, UsResidenceRequired})
  {
    hide Alternatives;
    hide RemoteFrom;
    CountriesMean(location, p);
    if RemoteOnlyFrom(location, UnitedStates, p) {
      assert !RemoteFrom(location, Canada, p) by {
        OnlyOne(location, p);
      }
    }
  }

  lemma OnlyOne(location: string, p: Patterns)
    requires RemoteOnlyFrom(location, UnitedStates, p)
    ensures !RemoteFrom(location, Canada, p)
  {
  }

  // ------------------------------------------------------------- the whole posting

  /** A clause assertion is recorded exactly when its clause, in a scanned line of a bounded source, makes it. */
  lemma ClauseRecordedIff(
    posting: Posting, p: Patterns, kind: Kind, clause: string, section: Section, line: nat, condition: Option<string>)
    ensures OfClause(kind, clause, section, line, condition) in Assertions(posting, p) <==>
            && posting.fingerprint != "" && posting.version >= 1
            && posting.textLength <= 200000 && |posting.lines| <= 2000
            && 1 <= line <= |posting.lines| && clause in p.clauses(posting.lines[line - 1])
            && section == SectionAfter(posting.lines, line - 1, p)
            && section.kind != Boilerplate && !p.inlineBoilerplate(posting.lines[line - 1])
            && !p.boilerplateHeading(posting.lines[line - 1]) && !p.heading(posting.lines[line - 1])
            && Makes(kind, clause, section.kind, p) && Carries(kind, clause, condition)
  {
    hide LinesAssertions;
    hide LocationKind;
    hide SectionAfter;
    hide Findings;
    hide Makes;
    hide Carries;
    var a := OfClause(kind, clause, section, line, condition);
    FoundIff(kind, condition, clause, section.kind, p);
    assert a !in LocationAssertions(posting.location, p);
    if WithinBounds(posting) {
      RecordedIff(posting, p, a);
    }
  }

  // ------------------------------------------------------------------ the decision

  /** Kinds that contradict each other. */
  predicate Contradict(a: Kind, b: Kind) {
    || (a in {CanadaSupported, WorldwideSupported}
        && b in {CanadaExcluded, UsResidenceRequired, AuthorizationUsRequired})
    || (a == SponsorshipOffered && b == SponsorshipDenied)
    || (a == EorOffered && b == EorDenied)
  }

  ghost predicate Contradictory(kinds: set<Kind>) {
    exists a, b :: a in kinds && b in kinds && Contradict(a, b)
  }

  lemma ContradictoryIff(kinds: set<Kind>)
    ensures Contradictory(kinds) <==> Conflicts(kinds)
  {
    if Conflicts(kinds) {
      var a := if Supports(kinds) && !(SponsorshipOffered in kinds && SponsorshipDenied in kinds)
                  && !(EorOffered in kinds && EorDenied in kinds)
               then if CanadaSupported in kinds then CanadaSupported else WorldwideSupported
               else if SponsorshipOffered in kinds && SponsorshipDenied in kinds then SponsorshipOffered
               else EorOffered;
      var b := if a == SponsorshipOffered then SponsorshipDenied
               else if a == EorOffered then EorDenied
               else if CanadaExcluded in kinds then CanadaExcluded
               else if UsResidenceRequired in kinds then UsResidenceRequired
               else AuthorizationUsRequired;
      assert a in kinds && b in kinds && Contradict(a, b);
    }
  }

  /** Which flags a decision sets, by the kinds asserted. */
  lemma FlagsMean(kinds: set<Kind>)
    ensures var flags, sound := Decided(kinds), !Contradictory(kinds);
            && (ConflictingFlag in flags <==> !sound)
            && (CanadaFlag in flags <==>
                  && sound && (CanadaSupported in kinds || WorldwideSupported in kinds)
                  && RegionRestricted !in kinds && ConditionalGeography !in kinds)
            && (SponsorshipFlag in flags <==> sound && SponsorshipOffered in kinds)
            && (ResidenceFlag in flags <==> sound && UsResidenceRequired in kinds)
            && (IncompatibleFlag in flags <==> sound && (CanadaExcluded in kinds || UsResidenceRequired in kinds))
            && (UnknownFlag in flags <==>
                  flags !! {ConflictingFlag, CanadaFlag, SponsorshipFlag, ResidenceFlag, IncompatibleFlag})
  {
    ContradictoryIff(kinds);
  }

  /** Why a stored decision is not believed: nothing to compare, another source, or another content. */
  lemma StatusesMean(posting: Posting, stored: Option<Stored>, p: Patterns)
    ensures var status := StatusOf(posting, stored, p);
            var known := stored.Some? && posting.fingerprint != "" && posting.version >= 1;
            && (status == MissingStatus <==> !known)
            && (status == Stale <==>
                  && known
                  && (stored.value.payload.fingerprint != posting.fingerprint
                      || stored.value.payload.version != posting.version))
            && (status == Current <==>
                  && known && status != Stale
                  && stored.value.versioned && stored.value.payload.assertions == Assertions(posting, p))
  {
    hide Assertions;
  }

  // ---------------------------------------------------------------- the section in force

  /** The posting's own summary, from its first line, until a heading is met; then what that opens, a line further. */
  lemma SectionsMean(lines: seq<string>, n: nat, p: Patterns)
    requires n < |lines|
    ensures SectionAfter(lines, 0, p) == Section(Summary, 1)
    ensures var line, here, behind := lines[n], SectionAfter(lines, n, p), SectionAfter(lines, n + 1, p);
            if p.inlineBoilerplate(line) then behind == here
            else if p.boilerplateHeading(line) then behind == Section(Boilerplate, n + 1)
            else if p.heading(line) then
              behind == Section(if p.qualificationsWord(line) then Qualifications else Location, n + 1)
            else behind == here
  {
  }

  /** Places are separated by semicolons, trimmed, and never empty. */
  lemma PlacesMean(first: string, rest: string)
    requires forall i :: 0 <= i < |first| ==> first[i] != ';'
    ensures Alternatives(first) == if Trim(first) == "" then [] else [Trim(first)]
    ensures Alternatives(first + [';'] + rest) == Alternatives(first) + Alternatives(rest)
  {
    hide Trim;
    SplitWhole(first, c => c == ';');
    SplitAt(first, ';', rest, c => c == ';');
    TrimmedParts([first], Split(rest, c => c == ';'));
    assert Map([first], Trim) == [Trim(first)];
    assert [Trim(first)][1..] == [];
  }

  lemma TrimmedParts(a: seq<string>, b: seq<string>)
    ensures Filter(Map(a + b, Trim), NonEmpty) == Filter(Map(a, Trim), NonEmpty) + Filter(Map(b, Trim), NonEmpty)
  {
    hide Trim;
    MapAppend(a, b, Trim);
    FilterAppend(Map(a, Trim), Map(b, Trim), NonEmpty);
  }
}
