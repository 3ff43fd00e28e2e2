/** What the benchmark's counters count, and which requests its budgets let through. */
module EvaluationLaws {
  import opened Sequences
  import opened DecisionBudget
  import opened DecisionEvaluate
  import B = BudgetLaws

  // -------------------------------------------------------------------- concepts

  /** What a list of predictions says about a citation: its last word on it. */
  function LastWord(observed: seq<Predicted>, citation: string): Option<Predicted> {
    if observed == [] then None
    else
      var later := LastWord(observed[1..], citation);
      if later.Some? then later
      else if observed[0].citation == citation then Some(observed[0])
      else None
  }

  lemma {:induction false} LastWordBehind(observed: seq<Predicted>, p: Predicted, citation: string)
    ensures LastWord(observed + [p], citation) ==
            if p.citation == citation then Some(p) else LastWord(observed, citation)
  {
    if observed == [] {
      assert ([] + [p])[1..] == [];
    } else {
      LastWordBehind(observed[1..], p, citation);
      assert (observed + [p])[1..] == observed[1..] + [p];
    }
  }

  lemma {:induction false} PredictionIsLastWord(observed: seq<Predicted>, citation: string)
    ensures PredictionFor(observed, citation) == LastWord(observed, citation)
  {
    if observed == [] {
    } else {
      var n := |observed| - 1;
      PredictionIsLastWord(observed[..n], citation);
      LastWordBehind(observed[..n], observed[n], citation);
      assert observed == observed[..n] + [observed[n]];
    }
  }

  /** A prediction counts for its citation exactly when no later one has the same citation. */
  lemma {:induction false} LastPredictionCounts(observed: seq<Predicted>, k: nat)
    requires k < |observed| && forall j :: k < j < |observed| ==> observed[j].citation != observed[k].citation
    ensures PredictionFor(observed, observed[k].citation) == Some(observed[k])
  {
    var n := |observed| - 1;
    if k < n {
      assert observed[n].citation != observed[k].citation;
      LastPredictionCounts(observed[..n], k);
    }
  }

  /** The slug last predicted for a citation, if any. */
  function Slug(observed: seq<Predicted>, citation: string): Option<string> {
    if LastWord(observed, citation).Some? then LastWord(observed, citation).value.slug else None
  }

  predicate Ok(observed: seq<Predicted>, citation: string) {
    LastWord(observed, citation).Some? && LastWord(observed, citation).value.ok
  }

  lemma SlugIs(observed: seq<Predicted>, e: Expected)
    ensures SuggestionFor(observed, e) == Slug(observed, e.citation)
    ensures IsChecked(observed, e) <==> Ok(observed, e.citation)
  {
    PredictionIsLastWord(observed, e.citation);
  }

  lemma EquivalentCounts(expected: seq<Expected>, observed: seq<Predicted>, outside: nat)
    ensures var c := CountsOf(expected, TestsFor(observed), outside);
            && c.equivalentSpans == Count(expected, (e: Expected) => e.kind == Equivalent)
            && c.equivalentChecked ==
               Count(expected, (e: Expected) => e.kind == Equivalent && Ok(observed, e.citation))
            && c.equivalentCorrect ==
               Count(expected, (e: Expected) => e.kind == Equivalent && Slug(observed, e.citation) == Some(e.slug))
            && c.equivalentWrong ==
               Count(expected, (e: Expected) =>
                 e.kind == Equivalent && Slug(observed, e.citation) !in [None, Some(e.slug)])
            && c.equivalentMissed ==
               Count(expected, (e: Expected) => e.kind == Equivalent && Slug(observed, e.citation) == None)
  {
    hide SuggestionFor;
    hide IsChecked;
    hide Slug;
    hide Ok;
    var t := TestsFor(observed);
    forall e: Expected
      ensures SuggestionFor(observed, e) == Slug(observed, e.citation)
      ensures IsChecked(observed, e) == Ok(observed, e.citation)
    {
      SlugIs(observed, e);
    }
    FilterCongruent(expected, t.equivalentChecked,
                    (e: Expected) => e.kind == Equivalent && Ok(observed, e.citation));
    FilterCongruent(expected, t.correct,
                    (e: Expected) => e.kind == Equivalent && Slug(observed, e.citation) == Some(e.slug));
    FilterCongruent(expected, t.wrong,
                    (e: Expected) => e.kind == Equivalent && Slug(observed, e.citation) !in [None, Some(e.slug)]);
    FilterCongruent(expected, t.missed,
                    (e: Expected) => e.kind == Equivalent && Slug(observed, e.citation) == None);
  }

  lemma OtherCounts(expected: seq<Expected>, observed: seq<Predicted>, outside: nat)
    ensures var c := CountsOf(expected, TestsFor(observed), outside);
            && c.relatedOnlySpans == Count(expected, (e: Expected) => e.kind == RelatedOnly)
            && c.relatedOnlyChecked ==
               Count(expected, (e: Expected) => e.kind == RelatedOnly && Ok(observed, e.citation))
            && c.relatedOnlySuggested ==
               Count(expected, (e: Expected) => e.kind == RelatedOnly && Slug(observed, e.citation).Some?)
            && c.noFitSpans == Count(expected, (e: Expected) => e.kind == NoFit)
            && c.noFitChecked == Count(expected, (e: Expected) => e.kind == NoFit && Ok(observed, e.citation))
            && c.noFitSuggested ==
               Count(expected, (e: Expected) => e.kind == NoFit && Slug(observed, e.citation).Some?)
            && c.outsideReviewed == outside
  {
    hide SuggestionFor;
    hide IsChecked;
    hide Slug;
    hide Ok;
    var t := TestsFor(observed);
    forall e: Expected
      ensures SuggestionFor(observed, e) == Slug(observed, e.citation)
      ensures IsChecked(observed, e) == Ok(observed, e.citation)
    {
      SlugIs(observed, e);
    }
    FilterCongruent(expected, t.relatedChecked,
                    (e: Expected) => e.kind == RelatedOnly && Ok(observed, e.citation));
    FilterCongruent(expected, t.relatedSuggested,
                    (e: Expected) => e.kind == RelatedOnly && Slug(observed, e.citation).Some?);
    FilterCongruent(expected, t.noFitChecked,
                    (e: Expected) => e.kind == NoFit && Ok(observed, e.citation));
    FilterCongruent(expected, t.noFitSuggested,
                    (e: Expected) => e.kind == NoFit && Slug(observed, e.citation).Some?);
  }

  /** Suggestions for citations nobody expects anything of. */
  lemma OutsideCounts(expected: seq<Expected>, observed: seq<Predicted>)
    ensures Count(observed, p => Outside(p, expected)) ==
            Count(observed, (p: Predicted) =>
              p.slug.Some? && |p.slug.value| > 0
              && p.citation !in Map(expected, (e: Expected) => e.citation))
  {
    var cited := Map(expected, (e: Expected) => e.citation);
    forall citation: string ensures citation in cited <==> exists e :: e in expected && e.citation == citation {
      if citation in cited {
        var i :| 0 <= i < |cited| && cited[i] == citation;
        assert expected[i] in expected;
      }
      if e :| e in expected && e.citation == citation {
        var i :| 0 <= i < |expected| && expected[i] == e;
        assert cited[i] == citation;
      }
    }
    FilterCongruent(observed, p => Outside(p, expected), (p: Predicted) =>
      p.slug.Some? && |p.slug.value| > 0 && p.citation !in cited);
  }

  // -------------------------------------------------------------------- the budget

  /**
   One request: forwarded exactly while calls are left and, with a spending budget, while that has no stop and money
   for the largest prompt; blocked otherwise.
   */
  lemma ForwardedIff(s: Spend, reply: Option<Attempt>, largest: nat)
    requires s.account.Some? ==> s.account.value.unsettled == 0 && B.Pays(largest, 65536, s.account.value.rate)
    ensures var t := Decide(s, reply);
            var passes := (s.maxCalls.Some? ==> s.budgeted < s.maxCalls.value)
                        && (s.account.Some? ==>
                              && s.account.value.stop.None?
                              && s.account.value.reported + largest <= s.account.value.maxCost);
            && t.maxCalls == s.maxCalls && t.evaluated == s.evaluated + 1
            && (passes ==> t.budgeted == s.budgeted + 1 && t.blocked == s.blocked)
            && (!passes ==> t.budgeted == s.budgeted && t.blocked == s.blocked + 1)
            && (!passes && s.account.Some? ==>
                  t.account == Some(
                    if (s.maxCalls.None? || s.budgeted < s.maxCalls.value) && s.account.value.stop.None?
                    then s.account.value.(stop := Some(CostCap)) else s.account.value))
  {
    hide Cost;
    hide Settled;
    if s.account.Some? {
      B.CostPays(65536, s.account.value.rate, largest);
    }
  }

  /** What a forwarded request with a usable report leaves in the budget: its cost, rounded up, and one more call. */
  lemma ForwardedBooks(s: Spend, a: Attempt, largest: nat, cost: nat)
    requires s.account.Some? && s.account.value.unsettled == 0 && s.account.value.stop.None?
    requires B.Pays(largest, 65536, s.account.value.rate)
    requires s.maxCalls.Some? ==> s.budgeted < s.maxCalls.value
    requires s.account.value.reported + largest <= s.account.value.maxCost
    requires a.calls == 1 && B.Honest(a) && B.Pays(cost, a.usage.value.prompt, s.account.value.rate)
    ensures Decide(s, Some(a)).account ==
            Some(s.account.value.(
              reported := s.account.value.reported + cost, settledCalls := s.account.value.settledCalls + 1))
  {
    hide Cost;
    B.CostPays(65536, s.account.value.rate, largest);
    B.CostPays(a.usage.value.prompt, s.account.value.rate, cost);
    B.HonestIff(a);
  }
}
