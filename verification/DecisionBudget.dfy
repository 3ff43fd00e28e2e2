/**
 The spending and call limits around a metered decision provider: a reservation before each call, a settlement
 after it, and the gate that lets requests through, under any interleaving of requests.
 */
module DecisionBudget {
  import opened Sequences
  import opened JsNumbers

  const TOKEN_CEILING := 65536
  const MAX_RATE := 999999999
  const MAX_COST := 999999999

  datatype Stop = CallCap | CostCap | UnverifiedUsage
  datatype Usage = Usage(prompt: int, completion: int, total: int)

  /** What the provider reports about one attempt; `calls` is 0 if it sent nothing. */
  datatype Attempt = Attempt(ok: bool, calls: Calls, usage: Option<Usage>)
  type Calls = n: nat | n <= 1

  datatype Account = Account(
    maxCost: nat, rate: nat, reported: nat, settledCalls: nat, unsettled: nat, stop: Option<Stop>)

  /** The cost of some tokens in whole micros, rounded up. */
  function Cost(tokens: nat, rate: nat): nat {
    (tokens * rate + 999999) / 1000000
  }

  lemma CostIsCeiling(tokens: nat, rate: nat, c: nat)
    ensures Cost(tokens, rate) <= c <==> tokens * rate <= c * 1000000
  {
  }

  lemma CostMonotone(a: nat, b: nat, rate: nat)
    requires a <= b
    ensures Cost(a, rate) <= Cost(b, rate)
  {
    assert a * rate <= b * rate;
  }

  function PerCall(a: Account): nat {
    Cost(TOKEN_CEILING, a.rate)
  }

  /** A budget needs a positive rate and a positive spending cap. */
  function OpenBudget(supported: bool, rate: Option<int>, maxCost: Option<int>): (r: Option<Account>)
    ensures r.Some? <==> supported && rate.Some? && 1 <= rate.value <= MAX_RATE
                         && maxCost.Some? && 1 <= maxCost.value <= MAX_COST
    ensures r.Some? ==> PerCall(r.value) > 0 && r.value.unsettled == r.value.reported == 0 && r.value.stop.None?
  {
    if !supported || rate.None? || !(1 <= rate.value <= MAX_RATE)
       || maxCost.None? || !(1 <= maxCost.value <= MAX_COST)
    then None
    else
      CostIsCeiling(TOKEN_CEILING, rate.value, 0);
      Some(Account(maxCost.value, rate.value, 0, 0, 0, None))
  }

  predicate CanReserve(a: Account) {
    a.stop.None? && a.unsettled == 0 && a.reported + PerCall(a) <= a.maxCost
  }

  function Reserved(a: Account): Account {
    if a.stop.Some? || a.unsettled != 0 then a
    else if a.reported + PerCall(a) > a.maxCost then a.(stop := Some(CostCap))
    else a.(unsettled := PerCall(a))
  }

  predicate Verified(attempt: Option<Attempt>) {
    && attempt.Some? && attempt.value.ok && attempt.value.usage.Some?
    && var u := attempt.value.usage.value;
       && SafeCount(u.prompt) && SafeCount(u.completion) && SafeCount(u.total)
       && u.total == u.prompt + u.completion && u.prompt <= TOKEN_CEILING
  }

  predicate Unsent(attempt: Option<Attempt>) {
    attempt.Some? && attempt.value.calls == 0
  }

  function Settled(a: Account, attempt: Option<Attempt>): Account {
    if Unsent(attempt) then a.(unsettled := 0)
    else if !Verified(attempt) then a.(stop := Some(UnverifiedUsage))
    else a.(reported := a.reported + Cost(attempt.value.usage.value.prompt, a.rate),
            settledCalls := a.settledCalls + 1, unsettled := 0)
  }

  class JevBudget {
    const maxCost: nat
    const rate: nat
    var reported: nat
    var settledCalls: nat
    var unsettled: nat
    var stop: Option<Stop>

    function View(): Account
      reads this
    {
      Account(maxCost, rate, reported, settledCalls, unsettled, stop)
    }

    constructor (account: Account)
      ensures View() == account
    {
      maxCost, rate := account.maxCost, account.rate;
      reported, settledCalls, unsettled, stop :=
        account.reported, account.settledCalls, account.unsettled, account.stop;
    }

    method Reserve() returns (granted: bool)
      modifies this
      ensures granted == CanReserve(old(View()))
      ensures View() == Reserved(old(View()))
    {
      if stop.Some? || unsettled != 0 {
        return false;
      }
      var maxPerCall := Cost(TOKEN_CEILING, rate);
      if reported + maxPerCall > maxCost {
        stop := Some(CostCap);
        return false;
      }
      unsettled := maxPerCall;
      return true;
    }

    method Settle(attempt: Option<Attempt>) returns (accepted: bool)
      modifies this
      ensures accepted == (Unsent(attempt) || Verified(attempt))
      ensures View() == Settled(old(View()), attempt)
    {
      if attempt.Some? && attempt.value.calls == 0 {
        unsettled := 0;
        return true;
      }
      if !Verified(attempt) {
        stop := Some(UnverifiedUsage);
        return false;
      }
      reported := reported + Cost(attempt.value.usage.value.prompt, rate);
      settledCalls := settledCalls + 1;
      unsettled := 0;
      return true;
    }
  }

  // -------------------------------------------------------------------- the gate

  /**
   What the requests share. `flying` are the requests handed to the provider and not yet answered, `heard` those of
   them it has reported on, and `reporter` the request that the last report was about.
   */
  datatype Gate = Gate(
    account: Account, cap: nat, calls: nat, stop: Option<Stop>,
    last: Option<Attempt>, reporter: Option<nat>, flying: set<nat>, heard: set<nat>)

  /** A request enters; the provider may report on it once; then it returns or throws. */
  datatype Step = Enter(id: nat) | Report(id: nat, attempt: Attempt) | Return(id: nat) | Throw(id: nat)

  function Next(g: Gate, step: Step): Gate {
    match step
    case Enter(id) =>
      if id in g.flying then g
      else if g.calls >= g.cap then g.(stop := Some(CallCap))
      else if !CanReserve(g.account) then g.(account := Reserved(g.account))
      else g.(account := Reserved(g.account), last := None, reporter := None, flying := g.flying + {id})
    case Report(id, attempt) =>
      if id !in g.flying || id in g.heard then g
      else g.(calls := g.calls + attempt.calls, last := Some(attempt), reporter := Some(id), heard := g.heard + {id})
    case Return(id) =>
      if id !in g.flying then g
      else g.(account := Settled(g.account, g.last), flying := g.flying - {id}, heard := g.heard - {id})
    case Throw(id) =>
      if id !in g.flying then g
      else g.(flying := g.flying - {id}, heard := g.heard - {id})
  }

  function Run(g: Gate, steps: seq<Step>): Gate {
    if steps == [] then g else Next(Run(g, steps[..|steps| - 1]), steps[|steps| - 1])
  }

  predicate WithinCost(a: Account) {
    a.reported + a.unsettled <= a.maxCost && a.unsettled <= PerCall(a) && PerCall(a) > 0
  }

  /** At most one request is with the provider, and whatever it still may do is paid for. */
  ghost predicate Safe(g: Gate) {
    && WithinCost(g.account)
    && (forall i, j :: i in g.flying && j in g.flying ==> i == j)
    && g.heard <= g.flying
    && (g.flying != {} ==> g.account.unsettled == PerCall(g.account))
    && g.calls + |g.flying - g.heard| <= g.cap
    && (g.flying != {} && g.last.Some? ==> g.reporter.Some? && g.reporter.value in g.flying && g.flying == g.heard)
    && g.account.settledCalls
       + (if g.flying != {} && g.last.Some? && g.last.value.calls == 1 then 1 else 0) <= g.calls
  }

  function Opened(account: Account, cap: nat): Gate {
    Gate(account, cap, 0, None, None, None, {}, {})
  }

  lemma SettledWithinCost(a: Account, attempt: Option<Attempt>)
    requires WithinCost(a) && a.unsettled == PerCall(a)
    ensures WithinCost(Settled(a, attempt))
  {
    if !Unsent(attempt) && Verified(attempt) {
      CostMonotone(attempt.value.usage.value.prompt, TOKEN_CEILING, a.rate);
    }
  }

  lemma Alone(ids: set<nat>, id: nat)
    requires id in ids && forall i, j :: i in ids && j in ids ==> i == j
    ensures ids == {id}
  {
  }

  lemma EnterSafe(g: Gate, id: nat)
    requires Safe(g)
    ensures Safe(Next(g, Enter(id)))
  {
    if id !in g.flying && g.calls < g.cap && CanReserve(g.account) {
      assert g.flying == {};
      assert Next(g, Enter(id)).flying - Next(g, Enter(id)).heard == {id};
    }
  }

  lemma ReportSafe(g: Gate, id: nat, attempt: Attempt)
    requires Safe(g)
    ensures Safe(Next(g, Report(id, attempt)))
  {
    if id in g.flying && id !in g.heard {
      Alone(g.flying, id);
      assert g.flying - g.heard == {id};
      assert Next(g, Report(id, attempt)).flying - Next(g, Report(id, attempt)).heard == {};
    }
  }

  lemma LeaveSafe(g: Gate, id: nat)
    requires Safe(g)
    ensures Safe(Next(g, Return(id))) && Safe(Next(g, Throw(id)))
  {
    hide Settled;
    if id in g.flying {
      Alone(g.flying, id);
      SettledWithinCost(g.account, g.last);
      SettledCounts(g.account, g.last);
      assert g.flying - {id} == {} && g.heard - {id} == {};
    }
  }

  lemma SettledCounts(a: Account, attempt: Option<Attempt>)
    ensures Settled(a, attempt).settledCalls <=
            a.settledCalls + if attempt.Some? && attempt.value.calls == 1 then 1 else 0
  {
  }

  lemma NextSafe(g: Gate, step: Step)
    requires Safe(g)
    ensures Safe(Next(g, step))
  {
    hide Next;
    hide Safe;
    match step
    case Enter(id) => EnterSafe(g, id);
    case Report(id, attempt) => ReportSafe(g, id, attempt);
    case Return(id) => LeaveSafe(g, id);
    case Throw(id) => LeaveSafe(g, id);
  }

  lemma {:induction false} RunSafe(g: Gate, steps: seq<Step>)
    requires Safe(g)
    ensures Safe(Run(g, steps))
    ensures Run(g, steps).cap == g.cap && Run(g, steps).account.maxCost == g.account.maxCost
  {
    hide Safe;
    if steps == [] {
    } else {
      RunSafe(g, steps[..|steps| - 1]);
      NextSafe(Run(g, steps[..|steps| - 1]), steps[|steps| - 1]);
    }
  }

  /**
   However requests interleave and whatever the provider reports, at most one is with the provider, its calls stay
   within the cap, and reported and reserved cost together within the spending cap.
   */
  lemma LimitsHold(account: Account, cap: nat, steps: seq<Step>)
    requires OpenBudget(true, Some(account.rate as int), Some(account.maxCost as int)) == Some(account)
    ensures var g := Run(Opened(account, cap), steps);
            && (forall i, j :: i in g.flying && j in g.flying ==> i == j)
            && g.calls <= cap
            && g.account.reported + g.account.unsettled <= account.maxCost
            && g.account.settledCalls <= g.calls
  {
    hide Run;
    var g := Opened(account, cap);
    assert g.flying - g.heard == {};
    RunSafe(g, steps);
  }

  /** A report is settled only by the request it is about. */
  lemma OwnReportSettled(account: Account, cap: nat, steps: seq<Step>, id: nat)
    requires OpenBudget(true, Some(account.rate as int), Some(account.maxCost as int)) == Some(account)
    ensures var g := Run(Opened(account, cap), steps);
            id in g.flying && g.last.Some? ==> g.reporter == Some(id)
  {
    hide Run;
    var g := Opened(account, cap);
    assert g.flying - g.heard == {};
    RunSafe(g, steps);
  }

  /** A reservation nobody will settle: after a request threw, or one whose usage could not be verified. */
  predicate Locked(g: Gate) {
    g.flying == {} && g.account.unsettled != 0
  }

  /** From then on no request reaches the provider, whether or not a stop reason was ever set. */
  lemma {:induction false} LockedForever(g: Gate, steps: seq<Step>)
    requires Locked(g)
    ensures var h := Run(g, steps);
            && Locked(h) && h.calls == g.calls && h.account == g.account
            && (h.stop == g.stop || h.stop == Some(CallCap))
  {
    if steps == [] {
    } else {
      LockedForever(g, steps[..|steps| - 1]);
    }
  }

  /** Step `i` is a throw of a request that was with the provider. */
  ghost predicate ThrewAt(g: Gate, steps: seq<Step>, i: nat)
    requires i < |steps|
  {
    steps[i].Throw? && steps[i].id in Run(g, steps[..i]).flying
  }

  ghost predicate Threw(g: Gate, steps: seq<Step>) {
    exists i :: 0 <= i < |steps| && ThrewAt(g, steps, i)
  }

  lemma ThrewStep(g: Gate, steps: seq<Step>)
    requires steps != []
    ensures Threw(g, steps) <==> Threw(g, steps[..|steps| - 1]) || ThrewAt(g, steps, |steps| - 1)
  {
    var init := steps[..|steps| - 1];
    forall i | 0 <= i < |init| ensures ThrewAt(g, init, i) == ThrewAt(g, steps, i) {
      assert init[..i] == steps[..i];
    }
    if i :| 0 <= i < |steps| && ThrewAt(g, steps, i) {
      assert i < |init| ==> ThrewAt(g, init, i);
    }
    if i :| 0 <= i < |init| && ThrewAt(g, init, i) {
      assert ThrewAt(g, steps, i);
    }
  }

  /**
   How a gate can stand: silently locked if a request threw; otherwise a reservation with no request behind it has
   left a stop reason, and a request is only ever out while there is none.
   */
  ghost predicate Explained(g: Gate, threw: bool) {
    && (g.flying != {} ==> g.account.stop.None?)
    && (threw ==> Locked(g) && g.account.stop.None?)
    && (!threw && g.flying == {} ==> g.account.unsettled == 0 || g.account.stop.Some?)
  }

  lemma OutIsReserved(g: Gate)
    requires Safe(g)
    ensures g.flying != {} ==> g.account.unsettled != 0
    ensures forall id :: id in g.flying ==> g.flying - {id} == {}
  {
    forall id | id in g.flying ensures g.flying - {id} == {} {
      Alone(g.flying, id);
    }
  }

  lemma NextExplained(g: Gate, step: Step, threw: bool)
    requires Safe(g) && Explained(g, threw)
    ensures Explained(Next(g, step), threw || (step.Throw? && step.id in g.flying))
  {
    hide Safe;
    hide Verified;
    hide PerCall;
    OutIsReserved(g);
  }

  lemma {:induction false} RunExplained(g: Gate, steps: seq<Step>)
    requires Safe(g) && Explained(g, false)
    ensures Explained(Run(g, steps), Threw(g, steps))
  {
    hide Safe;
    hide Explained;
    hide Next;
    if steps == [] {
      assert !Threw(g, steps);
    } else {
      var init := steps[..|steps| - 1];
      var before, last := Run(g, init), steps[|steps| - 1];
      RunExplained(g, init);
      RunSafe(g, init);
      ThrewStep(g, steps);
      NextExplained(before, last, Threw(g, init));
      assert ThrewAt(g, steps, |steps| - 1) == (last.Throw? && last.id in before.flying);
      assert Threw(g, steps) == (Threw(g, init) || (last.Throw? && last.id in before.flying));
    }
  }

  /**
   The gate ends up locked without a stop reason in the budget exactly when some request threw while it was with
   the provider.
   */
  lemma ThrowLocks(account: Account, cap: nat, steps: seq<Step>)
    requires OpenBudget(true, Some(account.rate as int), Some(account.maxCost as int)) == Some(account)
    ensures var g := Run(Opened(account, cap), steps);
            Locked(g) && g.account.stop.None? <==>
            exists i :: 0 <= i < |steps| && steps[i].Throw?
                        && steps[i].id in Run(Opened(account, cap), steps[..i]).flying
  {
    hide Run;
    var g := Opened(account, cap);
    assert g.flying - g.heard == {};
    RunExplained(g, steps);
    if Threw(g, steps) {
      var i :| 0 <= i < |steps| && ThrewAt(g, steps, i);
      assert steps[i].Throw? && steps[i].id in Run(g, steps[..i]).flying;
    }
    if i :| 0 <= i < |steps| && steps[i].Throw? && steps[i].id in Run(g, steps[..i]).flying {
      assert ThrewAt(g, steps, i);
    }
  }
}
