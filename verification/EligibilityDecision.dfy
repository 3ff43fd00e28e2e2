/** The decision drawn from eligibility assertions, and when a stored one is believed. */
module EligibilityDecision {
  import opened Sequences
  import opened Eligibility
  import opened EligibilityTheorems

  // ------------------------------------------------------------------ decisions

  datatype Flag = CanadaFlag | SponsorshipFlag | ResidenceFlag | IncompatibleFlag | ConflictingFlag | UnknownFlag

  function Kinds(assertions: seq<Assertion>): set<Kind> {
    set a | a in assertions :: a.kind
  }

  predicate Supports(kinds: set<Kind>) {
    CanadaSupported in kinds || WorldwideSupported in kinds
  }

  predicate Conflicts(kinds: set<Kind>) {
    || (Supports(kinds)
        && (CanadaExcluded in kinds || UsResidenceRequired in kinds || AuthorizationUsRequired in kinds))
    || (SponsorshipOffered in kinds && SponsorshipDenied in kinds)
    || (EorOffered in kinds && EorDenied in kinds)
  }

  predicate Conditional(kinds: set<Kind>) {
    RegionRestricted in kinds || ConditionalGeography in kinds
  }

  /** The flags a decision sets, added up one by one. */
  method DecideOpportunityEligibility(payload: Payload) returns (flags: set<Flag>)
    ensures flags == Decided(Kinds(payload.assertions))
  {
    var kinds := Kinds(payload.assertions);
    var supported := CanadaSupported in kinds || WorldwideSupported in kinds;
    var sponsor := SponsorshipOffered in kinds;
    var us := UsResidenceRequired in kinds;
    var excluded := CanadaExcluded in kinds;
    var conflict :=
      || (supported && (excluded || us || AuthorizationUsRequired in kinds))
      || (sponsor && SponsorshipDenied in kinds)
      || (EorOffered in kinds && EorDenied in kinds);
    if conflict {
      return {ConflictingFlag};
    }
    var conditional := RegionRestricted in kinds || ConditionalGeography in kinds;
    flags := {};
    if supported && !conditional { flags := flags + {CanadaFlag}; }
    if sponsor { flags := flags + {SponsorshipFlag}; }
    if us { flags := flags + {ResidenceFlag}; }
    if excluded || us { flags := flags + {IncompatibleFlag}; }
    if flags == {} { flags := {UnknownFlag}; }
  }

  predicate Sets(kinds: set<Kind>, f: Flag) {
    match f
    case ConflictingFlag => Conflicts(kinds)
    case CanadaFlag => !Conflicts(kinds) && Supports(kinds) && !Conditional(kinds)
    case SponsorshipFlag => !Conflicts(kinds) && SponsorshipOffered in kinds
    case ResidenceFlag => !Conflicts(kinds) && UsResidenceRequired in kinds
    case IncompatibleFlag => !Conflicts(kinds) && (CanadaExcluded in kinds || UsResidenceRequired in kinds)
    case UnknownFlag =>
      && !Conflicts(kinds) && (Supports(kinds) ==> Conditional(kinds))
      && SponsorshipOffered !in kinds && UsResidenceRequired !in kinds && CanadaExcluded !in kinds
  }

  function Decided(kinds: set<Kind>): set<Flag> {
    set f: Flag | Sets(kinds, f)
  }

  const COMBINATIONS: set<set<Flag>> := {
    {UnknownFlag}, {ConflictingFlag}, {CanadaFlag}, {SponsorshipFlag}, {CanadaFlag, SponsorshipFlag},
    {IncompatibleFlag}, {SponsorshipFlag, IncompatibleFlag}, {ResidenceFlag, IncompatibleFlag},
    {SponsorshipFlag, ResidenceFlag, IncompatibleFlag}}

  /** Nine flag combinations are possible, and each of them occurs. */
  lemma DecisionsAreNine(flags: set<Flag>)
    ensures flags in COMBINATIONS <==> exists kinds :: Decided(kinds) == flags
  {
    if kinds :| Decided(kinds) == flags {
      DecidedListed(kinds);
    }
    if flags in COMBINATIONS {
      var kinds := Sample(flags);
      SampleDecides(flags);
    }
  }

  lemma DecidedListed(kinds: set<Kind>)
    ensures Decided(kinds) in COMBINATIONS
  {
    var flags := Decided(kinds);
    if Conflicts(kinds) {
      assert flags == {ConflictingFlag};
    } else if Sets(kinds, UnknownFlag) {
      assert flags == {UnknownFlag};
    } else if Sets(kinds, CanadaFlag) {
      assert flags == if SponsorshipOffered in kinds then {CanadaFlag, SponsorshipFlag} else {CanadaFlag};
    } else if UsResidenceRequired in kinds {
      assert flags == if SponsorshipOffered in kinds then {SponsorshipFlag, ResidenceFlag, IncompatibleFlag}
                      else {ResidenceFlag, IncompatibleFlag};
    } else {
      assert flags == if CanadaExcluded !in kinds then {SponsorshipFlag}
                      else if SponsorshipOffered in kinds then {SponsorshipFlag, IncompatibleFlag}
                      else {IncompatibleFlag};
    }
  }

  /** Kinds that make a combination. */
  function Sample(flags: set<Flag>): set<Kind> {
    if ConflictingFlag in flags then {EorOffered, EorDenied}
    else
      (if CanadaFlag in flags then {CanadaSupported} else {})
      + (if SponsorshipFlag in flags then {SponsorshipOffered} else {})
      + (if ResidenceFlag in flags then {UsResidenceRequired} else {})
      + (if IncompatibleFlag in flags then {CanadaExcluded} else {})
  }

  lemma SampleDecides(flags: set<Flag>)
    requires flags in COMBINATIONS
    ensures Decided(Sample(flags)) == flags
  {
    var kinds := Sample(flags);
    forall f: Flag ensures f in Decided(kinds) <==> f in flags {
      match f
      case CanadaFlag =>
      case SponsorshipFlag =>
      case ResidenceFlag =>
      case IncompatibleFlag =>
      case ConflictingFlag =>
      case UnknownFlag =>
    }
  }

  /** The number a decision is stored as: one bit for each flag. */
  function Bits(flags: set<Flag>): nat {
    (if CanadaFlag in flags then 1 else 0) + (if SponsorshipFlag in flags then 2 else 0)
    + (if ResidenceFlag in flags then 4 else 0) + (if IncompatibleFlag in flags then 8 else 0)
    + (if ConflictingFlag in flags then 16 else 0) + (if UnknownFlag in flags then 32 else 0)
  }

  /** As numbers: 32, 16, or one of seven below; the number tells the flags. */
  lemma DecisionNumbers(kinds: set<Kind>, others: set<Kind>)
    ensures Bits(Decided(kinds)) in {1, 2, 3, 8, 10, 12, 14, 16, 32}
    ensures Bits(Decided(kinds)) == Bits(Decided(others)) ==> Decided(kinds) == Decided(others)
  {
    hide Decided;
    DecidedListed(kinds);
    DecidedListed(others);
  }

  /** US residence always counts as incompatible and never stands beside Canada; unknown, conflicting stand alone. */
  lemma FlagsExclude(kinds: set<Kind>)
    ensures var flags := Decided(kinds);
            && flags != {}
            && (ResidenceFlag in flags ==> IncompatibleFlag in flags)
            && (CanadaFlag in flags ==> IncompatibleFlag !in flags)
            && (UnknownFlag in flags ==> flags == {UnknownFlag})
            && (ConflictingFlag in flags ==> flags == {ConflictingFlag})
  {
    DecidedListed(kinds);
  }

  /** A conflict cannot be argued away by further lines. */
  lemma ConflictStays(posting: Posting, longer: Posting, p: Patterns)
    requires WithinBounds(posting) && WithinBounds(longer) && Extends(longer, posting)
    requires ConflictingFlag in Decided(Kinds(Assertions(posting, p)))
    ensures Decided(Kinds(Assertions(longer, p))) == {ConflictingFlag}
  {
    hide Assertions;
    AppendingKeepsAssertions(posting, longer, p);
    var a, b := Assertions(posting, p), Assertions(longer, p);
    forall x | x in a ensures x in b {
      var i :| 0 <= i < |a| && a[i] == x;
      assert b[i] == x;
    }
    assert Kinds(a) <= Kinds(b);
    assert Conflicts(Kinds(b));
    FlagsExclude(Kinds(b));
  }

  // ------------------------------------------------------- believing a stored one

  datatype Status = Current | MissingStatus | Stale | Invalid
  datatype Decision = Decision(flags: set<Flag>, assertions: seq<Assertion>, status: Status)

  /** What a record stores; `versioned` says whether it names the current format. */
  datatype Stored = Stored(payload: Payload, versioned: bool)

  function StatusOf(posting: Posting, stored: Option<Stored>, p: Patterns): Status {
    var current := Built(posting, p);
    if stored.None? || current.fingerprint == "" || current.version < 1 then MissingStatus
    else if stored.value.payload.fingerprint != current.fingerprint
            || stored.value.payload.version != current.version then Stale
    else if !stored.value.versioned || stored.value.payload.assertions != current.assertions then Invalid
    else Current
  }

  function OpportunityEligibility(posting: Posting, stored: Option<Stored>, p: Patterns): Decision {
    var status := StatusOf(posting, stored, p);
    if status == Current then Decision(Decided(Kinds(Assertions(posting, p))), Assertions(posting, p), Current)
    else Decision({UnknownFlag}, [], status)
  }

  function Projection(posting: Posting, p: Patterns): Stored {
    Stored(Built(posting, p), true)
  }

  /**
   A stored decision is believed exactly when it is what a fresh scan of an identified source would store;
   otherwise the answer is unknown without any assertion.
   */
  lemma BelievedIff(posting: Posting, stored: Option<Stored>, p: Patterns)
    ensures var d := OpportunityEligibility(posting, stored, p);
            && (d.status == Current <==>
                  posting.fingerprint != "" && posting.version >= 1 && stored == Some(Projection(posting, p)))
            && (d.status != Current ==> d.flags == {UnknownFlag} && d.assertions == [])
            && (d.flags != {UnknownFlag} ==> WithinBounds(posting) && d.assertions != [])
  {
    hide LinesAssertions;
    hide LocationAssertions;
    hide Decided;
    NothingAsserted();
    if !WithinBounds(posting) {
      assert Assertions(posting, p) == [];
    }
  }

  lemma NothingAsserted()
    ensures Decided(Kinds([])) == {UnknownFlag}
  {
    assert Kinds([]) == {};
  }

  /** The rank a list is sorted by: 0 for Canada, 1 for sponsorship, 3 for incompatible, 2 for all the rest. */
  function Rank(flags: set<Flag>): nat {
    if CanadaFlag in flags then 0
    else if SponsorshipFlag in flags then 1
    else if ResidenceFlag in flags || IncompatibleFlag in flags then 3
    else 2
  }

  /** No source beyond its bounds, unidentified, or changed since it was stored, ranks above unknown. */
  lemma RankNeedsCurrentEvidence(posting: Posting, stored: Option<Stored>, p: Patterns)
    ensures var d := OpportunityEligibility(posting, stored, p);
            && (Rank(d.flags) < 2 ==>
                  && stored == Some(Projection(posting, p)) && WithinBounds(posting)
                  && (Rank(d.flags) == 0 <==> CanadaFlag in d.flags))
            && (Rank(d.flags) == 2 <==> d.flags == {UnknownFlag} || d.flags == {ConflictingFlag})
  {
    hide Assertions;
    hide Decided;
    hide WithinBounds;
    BelievedIff(posting, stored, p);
    DecidedListed(Kinds(Assertions(posting, p)));
  }
}
