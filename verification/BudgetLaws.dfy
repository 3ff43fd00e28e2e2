/** What one request costs and when it is let through, in tokens, rates and micros. */
module BudgetLaws {
  import opened Sequences
  import opened DecisionBudget

  /** `c` micros pay for `tokens` tokens at `rate` micros a million, and no fewer do. */
  predicate Pays(c: nat, tokens: nat, rate: nat) {
    tokens * rate <= c * 1000000 && (c > 0 ==> (c - 1) * 1000000 < tokens * rate)
  }

  /** A usable report: successful, with whole token counts that add up and a prompt within the ceiling. */
  predicate Honest(a: Attempt) {
    && a.ok && a.usage.Some?
    && 0 <= a.usage.value.prompt <= 65536 && 0 <= a.usage.value.completion
    && 0 <= a.usage.value.total <= 9007199254740991
    && a.usage.value.total == a.usage.value.prompt + a.usage.value.completion
  }

  /** A budget opens, empty, for a supported model, a rate of at most nine digits and a cap of as many. */
  lemma OpensIff(supported: bool, rate: Option<int>, maxCost: Option<int>)
    ensures var account := OpenBudget(supported, rate, maxCost);
            && (account.Some? <==>
                  && supported && rate.Some? && maxCost.Some?
                  && 0 < rate.value < 1000000000 && 0 < maxCost.value < 1000000000)
            && (account.Some? ==> account.value == Account(maxCost.value, rate.value, 0, 0, 0, None))
  {
  }

  lemma CostPays(tokens: nat, rate: nat, c: nat)
    ensures Pays(c, tokens, rate) <==> c == Cost(tokens, rate)
  {
    CostIsCeiling(tokens, rate, Cost(tokens, rate));
    if Cost(tokens, rate) > 0 {
      CostIsCeiling(tokens, rate, Cost(tokens, rate) - 1);
    }
    CostIsCeiling(tokens, rate, c);
    if c > 0 {
      CostIsCeiling(tokens, rate, c - 1);
    }
  }

  lemma HonestIff(a: Attempt)
    ensures Honest(a) <==> Verified(Some(a))
  {
  }

  /** A gate with nothing on the way and nothing reserved. */
  ghost predicate Idle(g: Gate) {
    g.flying == {} && g.heard == {} && g.account.unsettled == 0
  }

  /**
   An idle gate lets a request through exactly while there is a call left, no stop reason in the budget, and money
   for a prompt of the largest size; if it does not, it says why.
   */
  lemma EntersIff(g: Gate, id: nat, largest: nat)
    requires Idle(g) && Pays(largest, 65536, g.account.rate)
    ensures var h := Next(g, Enter(id));
            && (id in h.flying <==>
                  g.calls < g.cap && g.account.stop.None? && g.account.reported + largest <= g.account.maxCost)
            && (id in h.flying ==>
                  && h.account == g.account.(unsettled := largest) && h.stop == g.stop && h.calls == g.calls
                  && h.last.None? && h.flying == {id})
            && (g.calls >= g.cap ==> h == g.(stop := Some(CallCap)))
            && (g.calls < g.cap && g.account.stop.Some? ==> h == g)
            && (g.calls < g.cap && g.account.stop.None? && g.account.reported + largest > g.account.maxCost ==>
                  h == g.(account := g.account.(stop := Some(CostCap))))
  {
    hide Cost;
    CostPays(65536, g.account.rate, largest);
  }

  /** Entering, being reported on and returning, in this order. */
  function Served(id: nat, a: Attempt): seq<Step> {
    [Enter(id), Report(id, a), Return(id)]
  }

  lemma RunServed(g: Gate, id: nat, a: Attempt)
    ensures Run(g, Served(id, a)) == Next(Next(Next(g, Enter(id)), Report(id, a)), Return(id))
  {
    var steps := Served(id, a);
    assert steps[..2] == [Enter(id), Report(id, a)] && steps[..2][..1] == [Enter(id)] && steps[..2][..1][..0] == [];
    assert Run(g, steps[..2]) == Next(Run(g, steps[..2][..1]), Report(id, a));
    assert Run(g, steps[..2][..1]) == Next(Run(g, []), Enter(id));
  }

  /**
   What a request let through by an idle gate leaves behind: nothing if it was never sent; the cost of its prompt,
   rounded up, if its report is usable; otherwise the whole reservation, and a stop.
   */
  lemma ServedBooks(g: Gate, id: nat, a: Attempt, largest: nat, cost: nat)
    requires Idle(g) && Pays(largest, 65536, g.account.rate)
    requires g.calls < g.cap && g.account.stop.None? && g.account.reported + largest <= g.account.maxCost
    requires Honest(a) ==> Pays(cost, a.usage.value.prompt, g.account.rate)
    ensures var h := Run(g, Served(id, a));
            && h.calls == g.calls + a.calls && h.flying == {}
            && (a.calls == 0 ==> h.account == g.account)
            && (a.calls == 1 && Honest(a) ==>
                  h.account == g.account.(
                    reported := g.account.reported + cost, settledCalls := g.account.settledCalls + 1))
            && (a.calls == 1 && !Honest(a) ==>
                  h.account == g.account.(unsettled := largest, stop := Some(UnverifiedUsage)))
  {
    hide Cost;
    hide Verified;
    hide Honest;
    RunServed(g, id, a);
    EntersIff(g, id, largest);
    HonestIff(a);
    if Honest(a) {
      HonestPrompt(a);
      CostPays(a.usage.value.prompt, g.account.rate, cost);
    }
    var inside, out := Next(g, Enter(id)), Next(Next(g, Enter(id)), Report(id, a));
    assert inside.flying == {id} && out.last == Some(a) && out.flying == {id};
    assert out.flying - {id} == {};
  }

  lemma HonestPrompt(a: Attempt)
    requires Honest(a)
    ensures a.usage.Some? && a.usage.value.prompt >= 0
  {
  }
}
