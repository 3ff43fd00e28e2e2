/** The decision benchmark: how claims are scored against the expected ones, and the call cap shared by its splits. */
module DecisionEvaluate {
  import opened Sequences
  import opened DecisionBudget

  // --------------------------------------------------------------------- scoring

  function Bit(b: bool): nat {
    if b then 1 else 0
  }

  datatype Score = Score(correct: nat, wrong: nat, missing: nat)

  /** The score two multisets of keys deserve. */
  function Deserved(expected: multiset<string>, observed: multiset<string>): Score {
    assert |expected * observed| <= |expected| && |expected * observed| <= |observed| by {
      SharedAtMost(expected, observed);
    }
    Score(|expected * observed|, |observed| - |expected * observed|, |expected| - |expected * observed|)
  }

  lemma SharedAtMost(a: multiset<string>, b: multiset<string>)
    ensures |a * b| <= |a| && |a * b| <= |b|
  {
    assert a == a * b + (a - a * b);
    assert b == a * b + (b - a * b);
  }

  lemma SharedStep(a: multiset<string>, b: multiset<string>, k: string)
    ensures a * (b + multiset{k}) == a * b + if k in a - b then multiset{k} else multiset{}
    ensures a - (b + multiset{k}) == if k in a - b then (a - b) - multiset{k} else a - b
  {
  }

  lemma SpliceOne(s: seq<string>, i: nat)
    requires i < |s|
    ensures multiset(s[..i] + s[i + 1..]) == multiset(s) - multiset{s[i]}
    ensures |s[..i] + s[i + 1..]| == |s| - 1
  {
    assert s == s[..i] + [s[i]] + s[i + 1..];
  }

  /** The expected keys that the observed ones leave over, and how many they share. */
  function LeftOver(want: multiset<string>, seen: seq<string>): multiset<string> {
    want - multiset(seen)
  }

  function Shared(want: multiset<string>, seen: seq<string>): nat {
    |want * multiset(seen)|
  }

  lemma SeenStep(want: multiset<string>, seen: seq<string>, k: string)
    ensures var hit := k in LeftOver(want, seen);
            && LeftOver(want, seen + [k]) == LeftOver(want, seen) - (if hit then multiset{k} else multiset{})
            && Shared(want, seen + [k]) == Shared(want, seen) + Bit(hit)
  {
    SharedStep(want, multiset(seen), k);
    assert multiset(seen + [k]) == multiset(seen) + multiset{k};
  }

  /** One observed key: it takes an expected one if one like it is left. */
  lemma MatchStep(want: multiset<string>, seen: seq<string>, remaining: seq<string>, k: string)
    requires multiset(remaining) == LeftOver(want, seen)
    ensures var index := IndexOf(remaining, k);
            && Shared(want, seen + [k]) == Shared(want, seen) + Bit(index < |remaining|)
            && multiset(if index == |remaining| then remaining else remaining[..index] + remaining[index + 1..])
               == LeftOver(want, seen + [k])
  {
    hide LeftOver;
    hide Shared;
    SeenStep(want, seen, k);
    var index := IndexOf(remaining, k);
    assert k in remaining <==> k in multiset(remaining);
    if index < |remaining| {
      SpliceOne(remaining, index);
    } else {
      assert multiset(remaining) - multiset{} == multiset(remaining);
    }
  }

  lemma NothingSeen(want: multiset<string>)
    ensures LeftOver(want, []) == want && Shared(want, []) == 0
  {
    assert want * multiset{} == multiset{};
  }

  lemma AllSeen(want: multiset<string>, seen: seq<string>)
    ensures Shared(want, seen) <= |want| && Shared(want, seen) <= |seen|
    ensures Deserved(want, multiset(seen)) ==
            Score(Shared(want, seen), |seen| - Shared(want, seen), |want| - Shared(want, seen))
  {
    SharedAtMost(want, multiset(seen));
  }

  /** Greedy matching: each observed claim takes one expected claim with the same key, if one is left. */
  method Compare<T>(expected: seq<T>, observed: seq<T>, key: T -> string) returns (score: Score)
    ensures score == Deserved(multiset(Map(expected, key)), multiset(Map(observed, key)))
  {
    hide IndexOf;
    hide LeftOver;
    hide Shared;
    hide Deserved;
    ghost var want, got := multiset(Map(expected, key)), Map(observed, key);
    var remaining := Map(expected, key);
    var correct := 0;
    NothingSeen(want);
    for i := 0 to |observed|
      invariant multiset(remaining) == LeftOver(want, got[..i])
      invariant correct == Shared(want, got[..i])
      invariant |remaining| == |expected| - correct
    {
      assert got[..i + 1] == got[..i] + [got[i]];
      MatchStep(want, got[..i], remaining, got[i]);
      var index := IndexOf(remaining, key(observed[i]));
      if index == |remaining| {
        continue;
      }
      correct := correct + 1;
      remaining := remaining[..index] + remaining[index + 1..];
    }
    assert got[..|observed|] == got;
    AllSeen(want, got);
    score := Score(correct, |observed| - correct, |remaining|);
  }

  /** Swapping what was expected and what was observed swaps wrong and missing; nothing else depends on order. */
  lemma SwapSwaps(expected: multiset<string>, observed: multiset<string>)
    ensures var s, t := Deserved(expected, observed), Deserved(observed, expected);
            && t == Score(s.correct, s.missing, s.wrong)
            && s.correct + s.wrong == |observed| && s.correct + s.missing == |expected|
  {
    assert expected * observed == observed * expected;
  }

  /** Only the very same claims, as often, score perfectly. */
  lemma PerfectIff(expected: multiset<string>, observed: multiset<string>)
    ensures Deserved(expected, observed).wrong == 0 && Deserved(expected, observed).missing == 0 <==>
            expected == observed
  {
    var shared := expected * observed;
    SharedAtMost(expected, observed);
    assert expected == shared + (expected - shared);
    assert observed == shared + (observed - shared);
    if |shared| == |expected| && |shared| == |observed| {
      assert |expected - shared| == 0 && |observed - shared| == 0;
      assert expected - shared == multiset{} && observed - shared == multiset{};
    }
    if expected == observed {
      assert shared == expected;
    }
  }

  // -------------------------------------------------------------------- concepts

  datatype ConceptKind = Equivalent | RelatedOnly | NoFit
  datatype Expected = Expected(kind: ConceptKind, citation: string, slug: string)
  datatype Predicted = Predicted(citation: string, slug: Option<string>, ok: bool)

  datatype Counts = Counts(
    equivalentSpans: nat, equivalentChecked: nat, equivalentCorrect: nat, equivalentWrong: nat, equivalentMissed: nat,
    relatedOnlySpans: nat, relatedOnlyChecked: nat, relatedOnlySuggested: nat,
    noFitSpans: nat, noFitChecked: nat, noFitSuggested: nat, outsideReviewed: nat)

  /** The last prediction for a citation counts. */
  function PredictionFor(observed: seq<Predicted>, citation: string): (r: Option<Predicted>)
    ensures r.None? <==> forall p :: p in observed ==> p.citation != citation
    ensures r.Some? ==> r.value in observed && r.value.citation == citation
  {
    if observed == [] then None
    else if observed[|observed| - 1].citation == citation then Some(observed[|observed| - 1])
    else PredictionFor(observed[..|observed| - 1], citation)
  }

  function SuggestionFor(observed: seq<Predicted>, e: Expected): Option<string> {
    var p := PredictionFor(observed, e.citation);
    if p.None? then None else p.value.slug
  }

  predicate IsChecked(observed: seq<Predicted>, e: Expected) {
    var p := PredictionFor(observed, e.citation);
    p.Some? && p.value.ok
  }

  predicate Outside(p: Predicted, expected: seq<Expected>) {
    p.slug.Some? && p.slug.value != "" && forall e :: e in expected ==> e.citation != p.citation
  }

  type ConceptTest = Expected -> bool

  /** What each counter counts among the expected concepts. */
  datatype Tests = Tests(
    equivalent: ConceptTest, equivalentChecked: ConceptTest, correct: ConceptTest, wrong: ConceptTest,
    missed: ConceptTest, related: ConceptTest, relatedChecked: ConceptTest, relatedSuggested: ConceptTest,
    noFit: ConceptTest, noFitChecked: ConceptTest, noFitSuggested: ConceptTest)

  function TestsFor(observed: seq<Predicted>): Tests {
    Tests(
      (e: Expected) => e.kind == Equivalent,
      (e: Expected) => e.kind == Equivalent && IsChecked(observed, e),
      (e: Expected) => e.kind == Equivalent && SuggestionFor(observed, e) == Some(e.slug),
      (e: Expected) => e.kind == Equivalent && SuggestionFor(observed, e).Some?
                       && SuggestionFor(observed, e) != Some(e.slug),
      (e: Expected) => e.kind == Equivalent && SuggestionFor(observed, e).None?,
      (e: Expected) => e.kind == RelatedOnly,
      (e: Expected) => e.kind == RelatedOnly && IsChecked(observed, e),
      (e: Expected) => e.kind == RelatedOnly && SuggestionFor(observed, e).Some?,
      (e: Expected) => e.kind == NoFit,
      (e: Expected) => e.kind == NoFit && IsChecked(observed, e),
      (e: Expected) => e.kind == NoFit && SuggestionFor(observed, e).Some?)
  }

  function CountsOf(expected: seq<Expected>, t: Tests, outside: nat): Counts {
    Counts(
      Count(expected, t.equivalent), Count(expected, t.equivalentChecked), Count(expected, t.correct),
      Count(expected, t.wrong), Count(expected, t.missed), Count(expected, t.related),
      Count(expected, t.relatedChecked), Count(expected, t.relatedSuggested), Count(expected, t.noFit),
      Count(expected, t.noFitChecked), Count(expected, t.noFitSuggested), outside)
  }

  lemma CountNext(expected: seq<Expected>, i: nat, p: ConceptTest)
    requires i < |expected|
    ensures Count(expected[..i + 1], p) == Count(expected[..i], p) + Bit(p(expected[i]))
  {
    assert expected[..i + 1] == expected[..i] + [expected[i]];
    FilterAppend(expected[..i], [expected[i]], p);
  }

  lemma CountsNext(expected: seq<Expected>, i: nat, t: Tests, outside: nat)
    requires i < |expected|
    ensures var c, e := CountsOf(expected[..i], t, outside), expected[i];
            CountsOf(expected[..i + 1], t, outside) == Counts(
              c.equivalentSpans + Bit(t.equivalent(e)), c.equivalentChecked + Bit(t.equivalentChecked(e)),
              c.equivalentCorrect + Bit(t.correct(e)), c.equivalentWrong + Bit(t.wrong(e)),
              c.equivalentMissed + Bit(t.missed(e)), c.relatedOnlySpans + Bit(t.related(e)),
              c.relatedOnlyChecked + Bit(t.relatedChecked(e)), c.relatedOnlySuggested + Bit(t.relatedSuggested(e)),
              c.noFitSpans + Bit(t.noFit(e)), c.noFitChecked + Bit(t.noFitChecked(e)),
              c.noFitSuggested + Bit(t.noFitSuggested(e)), outside)
  {
    hide Count;
    CountNext(expected, i, t.equivalent);
    CountNext(expected, i, t.equivalentChecked);
    CountNext(expected, i, t.correct);
    CountNext(expected, i, t.wrong);
    CountNext(expected, i, t.missed);
    CountNext(expected, i, t.related);
    CountNext(expected, i, t.relatedChecked);
    CountNext(expected, i, t.relatedSuggested);
    CountNext(expected, i, t.noFit);
    CountNext(expected, i, t.noFitChecked);
    CountNext(expected, i, t.noFitSuggested);
  }

  lemma TestsMean(observed: seq<Predicted>, e: Expected)
    ensures var t, suggestion := TestsFor(observed), SuggestionFor(observed, e);
            && t.equivalent(e) == (e.kind == Equivalent) && t.related(e) == (e.kind == RelatedOnly)
            && t.noFit(e) == (e.kind == NoFit)
            && t.equivalentChecked(e) == (e.kind == Equivalent && IsChecked(observed, e))
            && t.relatedChecked(e) == (e.kind == RelatedOnly && IsChecked(observed, e))
            && t.noFitChecked(e) == (e.kind == NoFit && IsChecked(observed, e))
            && t.correct(e) == (e.kind == Equivalent && suggestion == Some(e.slug))
            && t.wrong(e) == (e.kind == Equivalent && suggestion.Some? && suggestion != Some(e.slug))
            && t.missed(e) == (e.kind == Equivalent && suggestion.None?)
            && t.relatedSuggested(e) == (e.kind == RelatedOnly && suggestion.Some?)
            && t.noFitSuggested(e) == (e.kind == NoFit && suggestion.Some?)
  {
    hide SuggestionFor;
    hide IsChecked;
  }

  /** One pass over the expected concepts. */
  method ScoreConcepts(expected: seq<Expected>, observed: seq<Predicted>) returns (counts: Counts)
    ensures counts == CountsOf(expected, TestsFor(observed), Count(observed, p => Outside(p, expected)))
  {
    hide CountsOf;
    hide TestsFor;
    hide SuggestionFor;
    hide IsChecked;
    var outside := Count(observed, p => Outside(p, expected));
    counts := Counts(0, 0, 0, 0, 0, 0, 0, 0, 0, 0, 0, outside);
    NothingCounted(TestsFor(observed), outside);
    for i := 0 to |expected|
      invariant counts == CountsOf(expected[..i], TestsFor(observed), outside)
      invariant counts.outsideReviewed == outside
    {
      CountsNext(expected, i, TestsFor(observed), outside);
      TestsMean(observed, expected[i]);
      var item := expected[i];
      var suggestion := SuggestionFor(observed, item);
      var checked := Bit(IsChecked(observed, item));
      if item.kind == Equivalent {
        counts := counts.(
          equivalentSpans := counts.equivalentSpans + 1, equivalentChecked := counts.equivalentChecked + checked);
        if suggestion.None? {
          counts := counts.(equivalentMissed := counts.equivalentMissed + 1);
        } else if suggestion == Some(item.slug) {
          counts := counts.(equivalentCorrect := counts.equivalentCorrect + 1);
        } else {
          counts := counts.(equivalentWrong := counts.equivalentWrong + 1);
        }
      } else if item.kind == RelatedOnly {
        counts := counts.(
          relatedOnlySpans := counts.relatedOnlySpans + 1, relatedOnlyChecked := counts.relatedOnlyChecked + checked,
          relatedOnlySuggested := counts.relatedOnlySuggested + Bit(suggestion.Some?));
      } else {
        counts := counts.(
          noFitSpans := counts.noFitSpans + 1, noFitChecked := counts.noFitChecked + checked,
          noFitSuggested := counts.noFitSuggested + Bit(suggestion.Some?));
      }
    }
    assert expected[..|expected|] == expected;
  }

  lemma NothingCounted(t: Tests, outside: nat)
    ensures CountsOf([], t, outside) == Counts(0, 0, 0, 0, 0, 0, 0, 0, 0, 0, 0, outside)
  {
  }

  /** The counters add up to the spans, and no span is checked or answered more than once. */
  lemma {:induction false} CountsAddUp(expected: seq<Expected>, observed: seq<Predicted>, outside: nat)
    ensures var c := CountsOf(expected, TestsFor(observed), outside);
            && c.equivalentSpans == c.equivalentCorrect + c.equivalentWrong + c.equivalentMissed
            && c.equivalentSpans + c.relatedOnlySpans + c.noFitSpans == |expected|
            && c.equivalentChecked <= c.equivalentSpans
            && c.relatedOnlyChecked <= c.relatedOnlySpans && c.relatedOnlySuggested <= c.relatedOnlySpans
            && c.noFitChecked <= c.noFitSpans && c.noFitSuggested <= c.noFitSpans
  {
    hide CountsOf;
    hide PredictionFor;
    hide SuggestionFor;
    hide IsChecked;
    if expected == [] {
      NothingCounted(TestsFor(observed), outside);
    } else {
      var n := |expected| - 1;
      CountsAddUp(expected[..n], observed, outside);
      CountsNext(expected, n, TestsFor(observed), outside);
      assert expected[..n + 1] == expected;
    }
  }

  // -------------------------------------------------------------------- the budget

  /** What both splits share, and the two counters of the current one. */
  datatype Spend = Spend(
    maxCalls: Option<nat>, account: Option<Account>, budgeted: nat, evaluated: nat, blocked: nat)

  predicate Forwards(s: Spend) {
    && (s.maxCalls.Some? ==> s.budgeted < s.maxCalls.value)
    && (s.account.Some? ==> CanReserve(s.account.value))
  }

  /** One request; `reply` is what the provider reports if the request reaches it. */
  function Decide(s: Spend, reply: Option<Attempt>): Spend {
    if s.maxCalls.Some? && s.budgeted >= s.maxCalls.value then
      s.(evaluated := s.evaluated + 1, blocked := s.blocked + 1)
    else if s.account.Some? && !CanReserve(s.account.value) then
      s.(evaluated := s.evaluated + 1, blocked := s.blocked + 1, account := Some(Reserved(s.account.value)))
    else
      s.(evaluated := s.evaluated + 1, budgeted := s.budgeted + 1,
        account := if s.account.None? then None else Some(Settled(Reserved(s.account.value), reply)))
  }

  function Split(s: Spend, replies: seq<Option<Attempt>>): Spend {
    if replies == [] then s.(evaluated := 0, blocked := 0)
    else Decide(Split(s, replies[..|replies| - 1]), replies[|replies| - 1])
  }

  class Evaluation {
    const maxCalls: Option<nat>
    const budget: JevBudget?
    var budgeted: nat
    var evaluated: nat
    var blocked: nat

    constructor (maxCalls: Option<nat>, budget: JevBudget?)
      ensures View() == Spend(maxCalls, if budget == null then None else Some(budget.View()), 0, 0, 0)
      ensures this.budget == budget
    {
      this.maxCalls, this.budget := maxCalls, budget;
      budgeted, evaluated, blocked := 0, 0, 0;
    }

    function View(): Spend
      reads this, budget
    {
      Spend(maxCalls, if budget == null then None else Some(budget.View()), budgeted, evaluated, blocked)
    }

    method DecideRequest(reply: Option<Attempt>) returns (forwarded: bool)
      modifies this, budget
      ensures View() == Decide(old(View()), reply)
      ensures forwarded == Forwards(old(View()))
    {
      hide Settled;
      hide Cost;
      evaluated := evaluated + 1;
      if maxCalls.Some? && budgeted >= maxCalls.value {
        blocked := blocked + 1;
        return false;
      }
      if budget != null {
        var granted := budget.Reserve();
        if !granted {
          blocked := blocked + 1;
          return false;
        }
      }
      budgeted := budgeted + 1;
      if budget != null {
        var _ := budget.Settle(reply);
      }
      return true;
    }

    method EvaluateSplit(replies: seq<Option<Attempt>>)
      modifies this, budget
      ensures View() == Split(old(View()), replies)
    {
      hide Decide;
      evaluated, blocked := 0, 0;
      for i := 0 to |replies|
        invariant View() == Split(old(View()), replies[..i])
      {
        assert replies[..i + 1][..i] == replies[..i];
        var _ := DecideRequest(replies[i]);
      }
      assert replies[..|replies|] == replies;
    }
  }

  lemma DecideKeeps(s: Spend, reply: Option<Attempt>)
    requires s.account.Some? ==>
               WithinCost(s.account.value) && s.account.value.unsettled in {0, PerCall(s.account.value)}
    ensures var t := Decide(s, reply);
            && t.maxCalls == s.maxCalls && (t.account.Some? <==> s.account.Some?)
            && (t.account.Some? ==>
                  && WithinCost(t.account.value) && t.account.value.unsettled in {0, PerCall(t.account.value)}
                  && t.account.value.maxCost == s.account.value.maxCost)
            && t.budgeted - s.budgeted == Bit(Forwards(s))
            && t.evaluated - s.evaluated == 1
            && t.blocked - s.blocked == Bit(!Forwards(s))
  {
    hide Settled;
    hide Cost;
    if s.account.Some? && CanReserve(s.account.value) {
      SettledWithinCost(Reserved(s.account.value), reply);
      SettledUnsettled(Reserved(s.account.value), reply);
    }
  }

  lemma SettledUnsettled(a: Account, attempt: Option<Attempt>)
    ensures var t := Settled(a, attempt);
            t.unsettled in {0, a.unsettled} && t.rate == a.rate && t.maxCost == a.maxCost
  {
  }

  ghost predicate Sound(s: Spend) {
    && (s.maxCalls.Some? ==> s.budgeted <= s.maxCalls.value)
    && (s.account.Some? ==> WithinCost(s.account.value) && s.account.value.unsettled in {0, PerCall(s.account.value)})
  }

  lemma {:induction false} SplitKeeps(s: Spend, replies: seq<Option<Attempt>>)
    requires Sound(s)
    ensures var t := Split(s, replies);
            && Sound(t) && t.maxCalls == s.maxCalls
            && (t.account.Some? <==> s.account.Some?)
            && (t.account.Some? ==> t.account.value.maxCost == s.account.value.maxCost)
            && t.evaluated == |replies| && t.evaluated == (t.budgeted - s.budgeted) + t.blocked
            && t.budgeted >= s.budgeted
  {
    hide Decide;
    hide WithinCost;
    hide PerCall;
    if replies == [] {
    } else {
      var n := |replies| - 1;
      SplitKeeps(s, replies[..n]);
      DecideKeeps(Split(s, replies[..n]), replies[n]);
    }
  }

  /**
   Over both splits the forwarded requests stay within the cap and the spending within its own; each split's requests
   were forwarded or blocked; and the whole run was within budget exactly when every request was forwarded.
   */
  lemma BothSplits(start: Spend, first: seq<Option<Attempt>>, second: seq<Option<Attempt>>)
    requires Sound(start) && start.budgeted == 0
    ensures var a := Split(start, first);
            var b := Split(a, second);
            && (start.maxCalls.Some? ==> b.budgeted <= start.maxCalls.value)
            && (b.account.Some? ==>
                  && start.account.Some?
                  && b.account.value.reported + b.account.value.unsettled <= start.account.value.maxCost)
            && a.evaluated == a.budgeted + a.blocked && b.evaluated == (b.budgeted - a.budgeted) + b.blocked
            && (a.blocked + b.blocked == 0 <==> b.budgeted == |first| + |second|)
  {
    hide Split;
    SplitKeeps(start, first);
    SplitKeeps(Split(start, first), second);
  }

  /** With a call cap alone, a split forwards requests until the cap is used up, and no request less. */
  lemma {:induction false} CapIsUsed(s: Spend, replies: seq<Option<Attempt>>)
    requires s.maxCalls.Some? && s.account.None? && s.budgeted <= s.maxCalls.value
    ensures var t := Split(s, replies);
            && t.maxCalls == s.maxCalls && t.account.None?
            && var all := s.budgeted + |replies|;
               t.budgeted == if all < s.maxCalls.value then all else s.maxCalls.value
  {
    if replies == [] {
    } else {
      CapIsUsed(s, replies[..|replies| - 1]);
    }
  }
}
