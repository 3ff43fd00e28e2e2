/**
 The order of effects while a release's database schema is prepared, under every pattern of failures. Each effect is
 attempted once; whether it fails, and with what, is up to `fate`.
 */
module ReleaseSchema {
  import opened Sequences

  /** A thrown value. JavaScript lets code throw anything, so it may be falsy. */
  datatype Failure = Failure(id: nat, truthy: bool)

  datatype Action =
    | CheckSafety
    | RepairNaturalKeyIndex | PrepareSourceCrawlReference
    | Migrate
    | RestoreSourceCrawlGuard | RestoreTagGuards
    | EnsureNaturalKeyIndex | EnsureAuthIndexes | EnsureAnalysisSchema | EnsureMatchingProjection
    | EnsureAnalysisMaintenance | EnsurePublicSearch | EnsureListIndexes | EnsureChangeFeed
    | EnsureSourceCrawlJobs | EnsureIntelligenceJobs | EnsureApplicationJobs | EnsureCrawlAccounting
    | EnsureRepairAudit | EnsureIntelligenceGovernance
    | InspectTags | ValidateTagGuards | ValidateSourceCrawlGuard

  datatype Event = Event(action: Action, failure: Option<Failure>)
  type Fate = nat -> Option<Failure>

  datatype Outcome = Done | Threw(error: Failure) | ThrewAll(errors: seq<Failure>) | NeedsRepair

  const EARLY := [RepairNaturalKeyIndex, PrepareSourceCrawlReference]
  const RESTORES := [RestoreSourceCrawlGuard, RestoreTagGuards]
  const LATE := [
    EnsureNaturalKeyIndex, EnsureAuthIndexes, EnsureAnalysisSchema, EnsureMatchingProjection,
    EnsureAnalysisMaintenance, EnsurePublicSearch, EnsureListIndexes, EnsureChangeFeed,
    EnsureSourceCrawlJobs, EnsureIntelligenceJobs, EnsureApplicationJobs, EnsureCrawlAccounting,
    EnsureRepairAudit, EnsureIntelligenceGovernance]
  const VALIDATIONS := [ValidateTagGuards, ValidateSourceCrawlGuard]

  // ------------------------------------------------- what happens, as a function

  /** The events of a step sequence, and the failure that ended it. */
  datatype Steps = Steps(events: seq<Event>, failure: Option<Failure>)

  function Attempt(a: Action, fate: Fate, n: nat): Event {
    Event(a, fate(n))
  }

  /** Check, act, check, act, until something fails; the first event has number `n`. */
  function Guarded(actions: seq<Action>, fate: Fate, n: nat): Steps {
    if actions == [] then Steps([], None)
    else
      var check := Attempt(CheckSafety, fate, n);
      if check.failure.Some? then Steps([check], check.failure)
      else
        var act := Attempt(actions[0], fate, n + 1);
        if act.failure.Some? then Steps([check, act], act.failure)
        else
          var rest := Guarded(actions[1..], fate, n + 2);
          Steps([check, act] + rest.events, rest.failure)
  }

  lemma GuardedStep(actions: seq<Action>, i: nat, fate: Fate, n: nat)
    requires i < |actions|
    ensures var check, act := Attempt(CheckSafety, fate, n), Attempt(actions[i], fate, n + 1);
            Guarded(actions[i..], fate, n) ==
            if check.failure.Some? then Steps([check], check.failure)
            else if act.failure.Some? then Steps([check] + [act], act.failure)
            else
              var rest := Guarded(actions[i + 1..], fate, n + 2);
              Steps([check] + [act] + rest.events, rest.failure)
  {
    assert actions[i..][1..] == actions[i + 1..];
    assert forall check: Event, act: Event :: [check] + [act] == [check, act];
  }

  lemma GuardedNothing(fate: Fate, n: nat)
    ensures Guarded([], fate, n) == Steps([], None)
  {
  }

  datatype Trace = Trace(events: seq<Event>, outcome: Outcome)

  function Ended(failure: Option<Failure>): Outcome {
    if failure.None? then Done else Threw(failure.value)
  }

  function Listed(failure: Option<Failure>): seq<Failure> {
    if failure.None? then [] else [failure.value]
  }

  /** A falsy failure of the migration is taken for none. */
  function Noticed(failure: Option<Failure>): Option<Failure> {
    if failure.Some? && failure.value.truthy then failure else None
  }

  /** The migration and the two restores, whatever fails. */
  function Window(fate: Fate, n: nat): seq<Event> {
    [Attempt(Migrate, fate, n), Attempt(RestoreSourceCrawlGuard, fate, n + 1), Attempt(RestoreTagGuards, fate, n + 2)]
  }

  function WindowFailures(window: seq<Event>): seq<Failure>
    requires |window| == 3
  {
    Listed(Noticed(window[0].failure)) + Listed(window[1].failure) + Listed(window[2].failure)
  }

  function Preparation(fate: Fate, n: nat): Trace {
    var early := Guarded(EARLY, fate, n);
    if early.failure.Some? then Trace(early.events, Ended(early.failure))
    else
      var check := Attempt(CheckSafety, fate, n + |early.events|);
      var before := early.events + [check];
      if check.failure.Some? then Trace(before, Ended(check.failure))
      else
        var window := Window(fate, n + |before|);
        if WindowFailures(window) != [] then Trace(before + window, ThrewAll(WindowFailures(window)))
        else
          var late := Guarded(LATE, fate, n + |before| + 3);
          Trace(before + window + late.events, Ended(late.failure))
  }

  function Finalization(clean: bool, fate: Fate, n: nat): Trace {
    var inspect := Attempt(InspectTags, fate, n);
    if inspect.failure.Some? then Trace([inspect], Ended(inspect.failure))
    else if !clean then Trace([inspect], NeedsRepair)
    else
      var rest := Guarded(VALIDATIONS, fate, n + 1);
      Trace([inspect] + rest.events, Ended(rest.failure))
  }

  // ---------------------------------------------------------------- the procedure

  class Database {
    var log: seq<Event>
    const fate: Fate

    constructor (fate: Fate)
      ensures log == [] && this.fate == fate
    {
      this.log, this.fate := [], fate;
    }

    method Perform(action: Action) returns (failure: Option<Failure>)
      modifies this
      ensures failure == fate(|old(log)|)
      ensures log == old(log) + [Attempt(action, fate, |old(log)|)]
    {
      failure := fate(|log|);
      log := log + [Event(action, failure)];
    }

    method GuardedSteps(actions: seq<Action>) returns (failure: Option<Failure>)
      modifies this
      ensures var steps := Guarded(actions, fate, |old(log)|);
              log == old(log) + steps.events && failure == steps.failure
    {
      hide Guarded;
      ghost var all := Guarded(actions, fate, |log|);
      for i := 0 to |actions|
        invariant |log| >= |old(log)|
        invariant var rest := Guarded(actions[i..], fate, |log|);
                  old(log) + all.events == log + rest.events && all.failure == rest.failure
      {
        GuardedStep(actions, i, fate, |log|);
        failure := Perform(CheckSafety);
        if failure.Some? {
          return;
        }
        failure := Perform(actions[i]);
        if failure.Some? {
          return;
        }
      }
      assert actions[|actions|..] == [];
      GuardedNothing(fate, |log|);
      failure := None;
    }

    method RestoreIntegrity() returns (failures: seq<Failure>)
      modifies this
      ensures var n := |old(log)|;
              && log == old(log) + [Attempt(RestoreSourceCrawlGuard, fate, n), Attempt(RestoreTagGuards, fate, n + 1)]
              && failures == Listed(fate(n)) + Listed(fate(n + 1))
    {
      failures := [];
      for i := 0 to |RESTORES|
        invariant log == old(log) + [Attempt(RESTORES[0], fate, |old(log)|),
                                     Attempt(RESTORES[1], fate, |old(log)| + 1)][..i]
        invariant failures == if i == 0 then []
                              else if i == 1 then Listed(fate(|old(log)|))
                              else Listed(fate(|old(log)|)) + Listed(fate(|old(log)| + 1))
      {
        var failure := Perform(RESTORES[i]);
        if failure.Some? {
          failures := failures + [failure.value];
        }
      }
    }

    /** The restores follow whether or not the migration fails, and all noticed failures are collected. */
    method MigrateAndRestore() returns (failures: seq<Failure>)
      modifies this
      ensures log == old(log) + Window(fate, |old(log)|)
      ensures failures == WindowFailures(Window(fate, |old(log)|))
    {
      var migrationFailure := Perform(Migrate);
      failures := RestoreIntegrity();
      if migrationFailure.Some? && migrationFailure.value.truthy {
        failures := [migrationFailure.value] + failures;
      }
    }

    method PrepareReleaseSchema() returns (outcome: Outcome)
      modifies this
      ensures var trace := Preparation(fate, |old(log)|);
              log == old(log) + trace.events && outcome == trace.outcome
    {
      hide Guarded;
      hide WindowFailures;
      var failure := GuardedSteps(EARLY);
      if failure.Some? {
        return Threw(failure.value);
      }
      failure := Perform(CheckSafety);
      if failure.Some? {
        return Threw(failure.value);
      }
      var failures := MigrateAndRestore();
      if failures != [] {
        return ThrewAll(failures);
      }
      failure := GuardedSteps(LATE);
      outcome := if failure.Some? then Threw(failure.value) else Done;
    }

    /** `clean` says that the inspected plan asks for no repair. */
    method FinalizeReleaseIntegrity(clean: bool) returns (outcome: Outcome)
      modifies this
      ensures var trace := Finalization(clean, fate, |old(log)|);
              log == old(log) + trace.events && outcome == trace.outcome
    {
      hide Guarded;
      var failure := Perform(InspectTags);
      if failure.Some? {
        return Threw(failure.value);
      }
      if !clean {
        return NeedsRepair;
      }
      failure := GuardedSteps(VALIDATIONS);
      outcome := if failure.Some? then Threw(failure.value) else Done;
    }
  }

  // ---------------------------------------------------- what every trace promises

  predicate IsRestore(a: Action) {
    a in RESTORES
  }

  predicate IsMutator(a: Action) {
    a != CheckSafety && !IsRestore(a) && a != InspectTags
  }

  predicate PassedCheck(e: Event) {
    e.action == CheckSafety && e.failure.None?
  }

  /** Every mutator other than a restore stands right behind a safety check that passed. */
  ghost predicate MutatorsGuarded(events: seq<Event>) {
    forall i :: 0 <= i < |events| && IsMutator(events[i].action) ==> i > 0 && PassedCheck(events[i - 1])
  }

  lemma GuardedAppend(a: seq<Event>, b: seq<Event>)
    requires MutatorsGuarded(a) && MutatorsGuarded(b)
    ensures MutatorsGuarded(a + b)
  {
    var all := a + b;
    forall i | 0 <= i < |all| && IsMutator(all[i].action) ensures i > 0 && PassedCheck(all[i - 1]) {
      if i >= |a| {
        assert all[i] == b[i - |a|];
        assert all[i - 1] == b[i - |a| - 1];
      }
    }
  }

  lemma {:induction false} StepsGuarded(actions: seq<Action>, fate: Fate, n: nat)
    ensures MutatorsGuarded(Guarded(actions, fate, n).events)
  {
    hide IsMutator;
    if actions == [] {
    } else {
      StepsGuarded(actions[1..], fate, n + 2);
      var check, act := Attempt(CheckSafety, fate, n), Attempt(actions[0], fate, n + 1);
      CheckIsNoMutator();
      if check.failure.None? && act.failure.None? {
        GuardedAppend([check, act], Guarded(actions[1..], fate, n + 2).events);
      }
    }
  }

  lemma CheckIsNoMutator()
    ensures !IsMutator(CheckSafety)
  {
  }

  lemma WindowGuarded(before: seq<Event>, fate: Fate, n: nat)
    requires MutatorsGuarded(before) && before != [] && PassedCheck(before[|before| - 1])
    ensures MutatorsGuarded(before + Window(fate, n))
  {
    var window := Window(fate, n);
    var all := before + window;
    forall i | 0 <= i < |all| && IsMutator(all[i].action) ensures i > 0 && PassedCheck(all[i - 1]) {
      if i < |before| {
        assert all[i] == before[i];
        assert i > 0;
        assert all[i - 1] == before[i - 1];
      } else {
        assert all[i] == window[i - |before|];
        assert i == |before|;
      }
    }
  }

  /** Whatever fails, every effect but the two restores runs right behind a passed safety check. */
  lemma PreparationGuarded(fate: Fate, n: nat)
    ensures MutatorsGuarded(Preparation(fate, n).events)
  {
    hide Guarded;
    hide MutatorsGuarded;
    hide Window;
    StepsGuarded(EARLY, fate, n);
    var early := Guarded(EARLY, fate, n);
    var check := Attempt(CheckSafety, fate, n + |early.events|);
    SingleCheck(check);
    GuardedAppend(early.events, [check]);
    var before := early.events + [check];
    if early.failure.None? && check.failure.None? {
      WindowGuarded(before, fate, n + |before|);
      StepsGuarded(LATE, fate, n + |before| + 3);
      GuardedAppend(before + Window(fate, n + |before|), Guarded(LATE, fate, n + |before| + 3).events);
    }
  }

  lemma SingleCheck(check: Event)
    requires check.action == CheckSafety
    ensures MutatorsGuarded([check])
  {
  }

  // ------------------------------------------------------------------ the script

  /** A safety check before each action. */
  function Script(actions: seq<Action>): seq<Action> {
    if actions == [] then [] else [CheckSafety, actions[0]] + Script(actions[1..])
  }

  function Actions(events: seq<Event>): seq<Action> {
    Map(events, (e: Event) => e.action)
  }

  /** Only the last event may have failed, and its failure is the one reported. */
  ghost predicate StopsAtFailure(events: seq<Event>, failure: Option<Failure>) {
    && (forall i :: 0 <= i < |events| - 1 ==> events[i].failure.None?)
    && (events == [] ==> failure.None?)
    && (events != [] ==> events[|events| - 1].failure == failure)
  }

  lemma {:induction false} StepsStop(actions: seq<Action>, fate: Fate, n: nat)
    ensures var steps := Guarded(actions, fate, n);
            StopsAtFailure(steps.events, steps.failure)
  {
    if actions == [] {
    } else {
      StepsStop(actions[1..], fate, n + 2);
    }
  }

  lemma {:induction false} StepsFollow(actions: seq<Action>, fate: Fate, n: nat)
    ensures var steps := Guarded(actions, fate, n);
            && Actions(steps.events) <= Script(actions)
            && (steps.failure.None? ==> Actions(steps.events) == Script(actions))
            && (actions != [] ==> steps.events != [])
  {
    if actions == [] {
    } else {
      StepsFollow(actions[1..], fate, n + 2);
      var check, act := Attempt(CheckSafety, fate, n), Attempt(actions[0], fate, n + 1);
      var rest := Guarded(actions[1..], fate, n + 2).events;
      assert Actions([check]) == [CheckSafety];
      assert Actions([check, act]) == [CheckSafety, actions[0]];
      MapAppend([check, act], rest, (e: Event) => e.action);
    }
  }

  const HEAD := [CheckSafety, RepairNaturalKeyIndex, CheckSafety, PrepareSourceCrawlReference, CheckSafety]
  const MIDDLE := [Migrate, RestoreSourceCrawlGuard, RestoreTagGuards]

  lemma EarlyScript()
    ensures Script(EARLY) == HEAD[..4]
  {
    assert EARLY[1..] == [PrepareSourceCrawlReference];
    assert EARLY[1..][1..] == [];
    assert Script([PrepareSourceCrawlReference]) == [CheckSafety, PrepareSourceCrawlReference];
  }

  /** The phases of a preparation: before the migration, the migration with its restores, and everything later. */
  ghost predicate Phased(t: Trace) {
    var k := |t.events|;
    && (k <= 5 || k >= 8)
    && (k <= 5 ==>
          && k > 0 && Actions(t.events) <= HEAD
          && t.events[k - 1].failure.Some? && t.outcome == Threw(t.events[k - 1].failure.value)
          && forall i :: 0 <= i < k - 1 ==> t.events[i].failure.None?)
    && (k >= 8 ==>
          && Actions(t.events[..5]) == HEAD && (forall i :: 0 <= i < 5 ==> t.events[i].failure.None?)
          && Actions(t.events[5..8]) == MIDDLE
          && (k == 8 <==> WindowFailures(t.events[5..8]) != [])
          && (k == 8 ==> t.outcome == ThrewAll(WindowFailures(t.events[5..8])))
          && Actions(t.events[8..]) <= Script(LATE)
          && (k > 8 ==>
                && (forall i :: 8 <= i < k - 1 ==> t.events[i].failure.None?)
                && t.outcome == Ended(t.events[k - 1].failure)
                && (t.outcome == Done ==> Actions(t.events[8..]) == Script(LATE))))
  }

  lemma EarlyLength(fate: Fate, n: nat)
    ensures var early := Guarded(EARLY, fate, n);
            && 0 < |early.events| <= 4 && Actions(early.events) <= HEAD
            && (early.failure.None? ==> |early.events| == 4 && Actions(early.events) == HEAD[..4])
  {
    hide Guarded;
    hide Script;
    StepsFollow(EARLY, fate, n);
    EarlyScript();
    var a := Actions(Guarded(EARLY, fate, n).events);
    assert a <= HEAD[..4] ==> a <= HEAD;
  }

  lemma WindowActions(fate: Fate, n: nat)
    ensures Actions(Window(fate, n)) == MIDDLE
  {
  }

  lemma BeforeMigration(fate: Fate, n: nat)
    requires Guarded(EARLY, fate, n).failure.None?
    ensures var early := Guarded(EARLY, fate, n).events;
            var before := early + [Attempt(CheckSafety, fate, n + |early|)];
            && |before| == 5 && Actions(before) == HEAD && forall i :: 0 <= i < 4 ==> before[i].failure.None?
  {
    hide Guarded;
    EarlyLength(fate, n);
    StepsStop(EARLY, fate, n);
    var early := Guarded(EARLY, fate, n).events;
    var check := Attempt(CheckSafety, fate, n + |early|);
    MapAppend(early, [check], (e: Event) => e.action);
    assert Actions([check]) == [CheckSafety];
    assert HEAD == HEAD[..4] + [CheckSafety];
  }

  lemma LatePhased(before: seq<Event>, window: seq<Event>, late: Steps)
    requires |before| == 5 && Actions(before) == HEAD && forall i :: 0 <= i < 5 ==> before[i].failure.None?
    requires |window| == 3 && Actions(window) == MIDDLE && WindowFailures(window) == []
    requires late.events != [] && StopsAtFailure(late.events, late.failure) && Actions(late.events) <= Script(LATE)
    requires late.failure.None? ==> Actions(late.events) == Script(LATE)
    ensures Phased(Trace(before + window + late.events, Ended(late.failure)))
  {
    hide Script;
    hide Actions;
    hide WindowFailures;
    var all := before + window + late.events;
    assert all[..5] == before && all[5..8] == window && all[8..] == late.events;
  }

  lemma WindowPhased(before: seq<Event>, window: seq<Event>)
    requires |before| == 5 && Actions(before) == HEAD && forall i :: 0 <= i < 5 ==> before[i].failure.None?
    requires |window| == 3 && Actions(window) == MIDDLE && WindowFailures(window) != []
    ensures Phased(Trace(before + window, ThrewAll(WindowFailures(window))))
  {
    hide Script;
    hide WindowFailures;
    var all := before + window;
    assert all[..5] == before && all[5..8] == window && all[8..] == [];
    assert Actions(all[8..]) == [];
  }

  lemma EarlyPhased(events: seq<Event>, failure: Failure)
    requires 0 < |events| <= 5 && StopsAtFailure(events, Some(failure)) && Actions(events) <= HEAD
    ensures Phased(Trace(events, Threw(failure)))
  {
  }

  /**
   Under every pattern of failures the effects are a prefix of one script that never stops between the migration and
   its restores; only the last effect outside that window may have failed, and the outcome reports exactly the
   failures there were, in order.
   */
  lemma PreparationPhased(fate: Fate, n: nat)
    ensures Phased(Preparation(fate, n))
  {
    hide Guarded;
    hide Phased;
    hide Script;
    hide WindowFailures;
    hide Window;
    var early := Guarded(EARLY, fate, n);
    EarlyLength(fate, n);
    StepsStop(EARLY, fate, n);
    if early.failure.Some? {
      EarlyPhased(early.events, early.failure.value);
    } else {
      BeforeMigration(fate, n);
      var check := Attempt(CheckSafety, fate, n + |early.events|);
      var before := early.events + [check];
      if check.failure.Some? {
        EarlyPhased(before, check.failure.value);
      } else {
        var window := Window(fate, n + |before|);
        WindowActions(fate, n + |before|);
        WindowSize(fate, n + |before|);
        if WindowFailures(window) != [] {
          WindowPhased(before, window);
        } else {
          StepsStop(LATE, fate, n + |before| + 3);
          StepsFollow(LATE, fate, n + |before| + 3);
          LatePhased(before, window, Guarded(LATE, fate, n + |before| + 3));
        }
      }
    }
  }

  lemma WindowSize(fate: Fate, n: nat)
    ensures |Window(fate, n)| == 3
  {
  }

  /** Later preparations run exactly when both restores succeeded and the migration threw nothing truthy. */
  lemma LaterStepsIff(fate: Fate, n: nat)
    ensures var events := Preparation(fate, n).events;
            |events| > 8 <==>
            |events| >= 8 && events[6].failure.None? && events[7].failure.None?
            && !(events[5].failure.Some? && events[5].failure.value.truthy)
  {
    hide Preparation;
    hide Actions;
    hide Script;
    PreparationPhased(fate, n);
  }

  /**
   So a failed migration stops the preparation, unless what it threw is falsy: then, and only then, the later steps
   run behind it, and the preparation can even end without an error.
   */
  lemma FailedMigrationPassesIff(fate: Fate, n: nat)
    ensures var events := Preparation(fate, n).events;
            |events| > 8 && events[5].failure.Some? <==>
            && |events| >= 8 && events[5].failure.Some? && !events[5].failure.value.truthy
            && events[6].failure.None? && events[7].failure.None?
  {
    hide Preparation;
    LaterStepsIff(fate, n);
  }

  /** If the migration throws a falsy value and nothing else fails, the whole preparation reports success. */
  lemma FalsyFailureIsLost(fate: Fate)
    requires fate(5).Some? && !fate(5).value.truthy && forall k :: k != 5 ==> fate(k).None?
    ensures var t := Preparation(fate, 0);
            t.outcome == Done && |t.events| > 8 && t.events[5] == Event(Migrate, fate(5))
  {
    hide Guarded;
    hide Actions;
    hide Script;
    EarlyLength(fate, 0);
    StepsSucceed(EARLY, fate, 0);
    BeforeMigration(fate, 0);
    StepsSucceed(LATE, fate, 8);
    StepsFollow(LATE, fate, 8);
  }

  lemma {:induction false} StepsSucceed(actions: seq<Action>, fate: Fate, n: nat)
    requires forall k :: n <= k < n + 2 * |actions| ==> fate(k).None?
    ensures Guarded(actions, fate, n).failure.None?
  {
    if actions == [] {
    } else {
      StepsSucceed(actions[1..], fate, n + 2);
    }
  }

  lemma {:induction false} ScriptAt(actions: seq<Action>, i: nat)
    requires i < |actions|
    ensures |Script(actions)| == 2 * |actions|
    ensures Script(actions)[2 * i] == CheckSafety && Script(actions)[2 * i + 1] == actions[i]
  {
    ScriptLength(actions);
    if i > 0 {
      ScriptAt(actions[1..], i - 1);
    }
  }

  lemma {:induction false} ScriptLength(actions: seq<Action>)
    ensures |Script(actions)| == 2 * |actions|
  {
    if actions == [] {
    } else {
      ScriptLength(actions[1..]);
    }
  }

  /** A preparation succeeds only by running all of this, in this order, with nothing failing but the migration. */
  lemma PreparationComplete(fate: Fate, n: nat)
    requires Preparation(fate, n).outcome == Done
    ensures var events, opening := Preparation(fate, n).events, [
              CheckSafety, RepairNaturalKeyIndex, CheckSafety, PrepareSourceCrawlReference, CheckSafety,
              Migrate, RestoreSourceCrawlGuard, RestoreTagGuards];
            var later := [
              EnsureNaturalKeyIndex, EnsureAuthIndexes, EnsureAnalysisSchema, EnsureMatchingProjection,
              EnsureAnalysisMaintenance, EnsurePublicSearch, EnsureListIndexes, EnsureChangeFeed,
              EnsureSourceCrawlJobs, EnsureIntelligenceJobs, EnsureApplicationJobs, EnsureCrawlAccounting,
              EnsureRepairAudit, EnsureIntelligenceGovernance];
            && |events| == 36
            && (forall i :: 0 <= i < 8 ==> events[i].action == opening[i])
            && (forall i :: 0 <= i < 14 ==>
                  events[8 + 2 * i].action == CheckSafety && events[9 + 2 * i].action == later[i])
            && (forall i :: 0 <= i < 36 && events[i].failure.Some? ==> i == 5 && !events[i].failure.value.truthy)
  {
    hide Preparation;
    hide Script;
    var events := Preparation(fate, n).events;
    PreparationPhased(fate, n);
    ScriptLength(LATE);
    forall i | 0 <= i < 14 ensures events[8 + 2 * i].action == CheckSafety && events[9 + 2 * i].action == LATE[i] {
      ScriptAt(LATE, i);
      assert Actions(events[8..])[2 * i] == events[8 + 2 * i].action;
      assert Actions(events[8..])[2 * i + 1] == events[9 + 2 * i].action;
    }
    forall i | 0 <= i < 8 ensures events[i].action == (HEAD + MIDDLE)[i] {
      assert i < 5 ==> Actions(events[..5])[i] == events[i].action;
      assert i >= 5 ==> Actions(events[5..8])[i - 5] == events[i].action;
    }
    LaterStepsIff(fate, n);
  }

  /**
   Several failures are reported at once exactly when the migration or a restore failed: the migration's first, if it
   is truthy, then those of the crawl guard and of the tag guards.
   */
  lemma FailuresListed(fate: Fate, n: nat)
    ensures var t := Preparation(fate, n);
            && (t.outcome.ThrewAll? <==> |t.events| == 8)
            && (|t.events| == 8 ==>
                  var first, second, third := t.events[5].failure, t.events[6].failure, t.events[7].failure;
                  t.outcome.errors ==
                  (if first.Some? && first.value.truthy then [first.value] else [])
                  + (if second.Some? then [second.value] else [])
                  + (if third.Some? then [third.value] else []))
  {
    hide Preparation;
    hide Actions;
    hide Script;
    PreparationPhased(fate, n);
    var t := Preparation(fate, n);
    if |t.events| == 8 {
      assert t.events[5..8] == [t.events[5], t.events[6], t.events[7]];
    }
  }

  // ------------------------------------------------------------------- finalizing

  /** Nothing is validated unless the plan is clean, and each validation follows its own passed check. */
  lemma FinalizationGuarded(clean: bool, fate: Fate, n: nat)
    ensures var t := Finalization(clean, fate, n);
            && MutatorsGuarded(t.events)
            && (t.outcome == NeedsRepair <==> !clean && fate(n).None?)
            && (|t.events| > 1 ==> clean && t.events[0].failure.None?)
  {
    hide Guarded;
    hide MutatorsGuarded;
    StepsGuarded(VALIDATIONS, fate, n + 1);
    var inspect, rest := Attempt(InspectTags, fate, n), Guarded(VALIDATIONS, fate, n + 1);
    InspectionGuarded(inspect);
    GuardedAppend([inspect], rest.events);
  }

  /** Finalizing succeeds only by running the whole script without a failure. */
  lemma FinalizationComplete(clean: bool, fate: Fate, n: nat)
    requires Finalization(clean, fate, n).outcome == Done
    ensures var events := Finalization(clean, fate, n).events;
            && Actions(events) == [InspectTags, CheckSafety, ValidateTagGuards, CheckSafety, ValidateSourceCrawlGuard]
            && forall i :: 0 <= i < |events| ==> events[i].failure.None?
  {
    hide Guarded;
    hide Script;
    hide Actions;
    StepsStop(VALIDATIONS, fate, n + 1);
    StepsFollow(VALIDATIONS, fate, n + 1);
    var inspect, rest := Attempt(InspectTags, fate, n), Guarded(VALIDATIONS, fate, n + 1);
    OneAction(inspect);
    ActionsAppend([inspect], rest.events);
    ValidationScript();
  }

  lemma OneAction(e: Event)
    ensures Actions([e]) == [e.action]
  {
  }

  lemma ActionsAppend(a: seq<Event>, b: seq<Event>)
    ensures Actions(a + b) == Actions(a) + Actions(b)
  {
    MapAppend(a, b, (e: Event) => e.action);
  }

  lemma InspectionGuarded(e: Event)
    requires e.action == InspectTags
    ensures MutatorsGuarded([e])
  {
  }

  lemma ValidationScript()
    ensures Script(VALIDATIONS) == [CheckSafety, ValidateTagGuards, CheckSafety, ValidateSourceCrawlGuard]
  {
    assert VALIDATIONS[1..] == [ValidateSourceCrawlGuard];
    assert VALIDATIONS[1..][1..] == [];
    assert Script([ValidateSourceCrawlGuard]) == [CheckSafety, ValidateSourceCrawlGuard];
  }
}
