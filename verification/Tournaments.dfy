/**
 Strict comparisons on a list of distinct records. A comparator that picks its rule from the pair being
 compared mixes two orders; MixedTransitiveIff says exactly when the mixture is still an order.
 */
module Tournaments {
  import opened Sequences
  import opened StableSort

  type Before<!T> = (T, T) -> bool

  /** Of two different elements exactly one comes first; none comes before itself. */
  ghost predicate Tournament<T(!new)>(b: Before<T>, d: set<T>) {
    forall x, y :: x in d && y in d ==> !(b(x, y) && b(y, x)) && (x != y ==> b(x, y) || b(y, x))
  }

  ghost predicate Transitive<T(!new)>(b: Before<T>, d: set<T>) {
    forall x, y, z {:trigger b(x, y), b(y, z)} ::
      x in d && y in d && z in d && b(x, y) && b(y, z) ==> b(x, z)
  }

  ghost predicate StrictTotal<T(!new)>(b: Before<T>, d: set<T>) {
    Tournament(b, d) && Transitive(b, d)
  }

  /** Pairs inside `special` are compared by `inner`, all other pairs by `outer`. */
  function Mixed<T>(special: T -> bool, inner: Before<T>, outer: Before<T>): Before<T> {
    (x, y) => if special(x) && special(y) then inner(x, y) else outer(x, y)
  }

  /** An ordinary element stands, in the outer order, between a special pair that the two orders disagree on. */
  ghost predicate Straddle<T(!new)>(
    special: T -> bool, inner: Before<T>, outer: Before<T>, x: T, y: T, z: T)
  {
    special(x) && special(y) && !special(z) && inner(x, y) && outer(y, z) && outer(z, x)
  }

  ghost predicate Straddled<T(!new)>(special: T -> bool, inner: Before<T>, outer: Before<T>, d: set<T>) {
    exists x, y, z :: x in d && y in d && z in d && Straddle(special, inner, outer, x, y, z)
  }

  function Specials<T>(special: T -> bool, d: set<T>): set<T> {
    set x | x in d && special(x)
  }

  lemma MixedTournament<T(!new)>(special: T -> bool, inner: Before<T>, outer: Before<T>, d: set<T>)
    requires Tournament(inner, Specials(special, d)) && Tournament(outer, d)
    ensures Tournament(Mixed(special, inner, outer), d)
  {
  }

  /** The mixture is an order exactly when the inner comparison is one and nothing is straddled. */
  lemma MixedTransitiveIff<T(!new)>(special: T -> bool, inner: Before<T>, outer: Before<T>, d: set<T>)
    requires Tournament(inner, Specials(special, d)) && StrictTotal(outer, d)
    ensures Transitive(Mixed(special, inner, outer), d) <==>
            Transitive(inner, Specials(special, d)) && !Straddled(special, inner, outer, d)
  {
    var mixed := Mixed(special, inner, outer);
    if Transitive(mixed, d) {
      assert forall x, y :: x in Specials(special, d) && y in Specials(special, d) ==> mixed(x, y) == inner(x, y);
      forall x, y, z | x in d && y in d && z in d ensures !Straddle(special, inner, outer, x, y, z) {
        assert mixed(x, y) && mixed(y, z) ==> mixed(x, z);
      }
    }
    if Transitive(inner, Specials(special, d)) && !Straddled(special, inner, outer, d) {
      forall x, y, z | x in d && y in d && z in d && mixed(x, y) && mixed(y, z) ensures mixed(x, z) {
        MixedStep(special, inner, outer, d, x, y, z);
      }
    }
  }

  lemma MixedStep<T(!new)>(
    special: T -> bool, inner: Before<T>, outer: Before<T>, d: set<T>, x: T, y: T, z: T)
    requires Tournament(inner, Specials(special, d)) && StrictTotal(outer, d)
    requires Transitive(inner, Specials(special, d)) && !Straddled(special, inner, outer, d)
    requires x in d && y in d && z in d
    requires Mixed(special, inner, outer)(x, y) && Mixed(special, inner, outer)(y, z)
    ensures Mixed(special, inner, outer)(x, z)
  {
    assert !Straddle(special, inner, outer, x, y, z);
    assert !Straddle(special, inner, outer, y, z, x);
    assert !Straddle(special, inner, outer, z, x, y);
    assert x != z ==> outer(x, z) || outer(z, x);
  }

  // ----------------------------------------------------------- arrangements

  /** A list in which every element comes before all later ones. */
  ghost predicate Arranged<T>(b: Before<T>, s: seq<T>) {
    forall i, j :: 0 <= i < j < |s| ==> b(s[i], s[j])
  }

  /** Some reordering of `s` is arranged. */
  ghost predicate HasArrangement<T(!new)>(b: Before<T>, s: seq<T>) {
    exists t :: multiset(t) == multiset(s) && Arranged(b, t)
  }

  /** `out` is the one arranged reordering of `s`. */
  ghost predicate OnlyArrangement<T(!new)>(b: Before<T>, s: seq<T>, out: seq<T>) {
    forall t :: multiset(t) == multiset(s) ==> (Arranged(b, t) <==> t == out)
  }

  /** Only an order can be arranged in full: pairwise arrangement implies transitivity. */
  lemma ArrangedIsTransitive<T(!new)>(b: Before<T>, s: seq<T>)
    requires Tournament(b, Elements(s)) && Arranged(b, s)
    ensures Transitive(b, Elements(s))
  {
    forall x, y, z | x in Elements(s) && y in Elements(s) && z in Elements(s) && b(x, y) && b(y, z)
      ensures b(x, z)
    {
      var i :| 0 <= i < |s| && s[i] == x;
      var j :| 0 <= j < |s| && s[j] == y;
      var k :| 0 <= k < |s| && s[k] == z;
      assert j < i ==> b(y, x);
      assert k < j ==> b(z, y);
      assert i < j < k;
    }
  }

  lemma HeadsAgree<T(!new)>(b: Before<T>, s: seq<T>, t: seq<T>, d: set<T>)
    requires Tournament(b, d) && Elements(s) <= d && Arranged(b, s) && Arranged(b, t)
    requires s != [] && t != [] && multiset(s) == multiset(t)
    ensures s[0] == t[0]
  {
    var x, y := s[0], t[0];
    assert x in multiset(t) && y in multiset(s);
    assert forall j :: 0 < j < |t| ==> b(y, t[j]);
    assert forall j :: 0 < j < |s| ==> b(x, s[j]);
    assert x == y || b(y, x);
    assert x == y || b(x, y);
    assert x in Elements(s) && y in Elements(s);
  }

  lemma ArrangedTail<T>(b: Before<T>, s: seq<T>)
    requires s != [] && Arranged(b, s)
    ensures Arranged(b, s[1..])
  {
  }

  /** An arrangement of given elements is unique. */
  lemma {:induction false} ArrangementUnique<T(!new)>(b: Before<T>, s: seq<T>, t: seq<T>, d: set<T>)
    requires Tournament(b, d) && Elements(s) <= d && Arranged(b, s) && Arranged(b, t)
    requires multiset(s) == multiset(t)
    ensures s == t
  {
    hide Tournament;
    hide Arranged;
    assert |s| == |multiset(s)| == |multiset(t)| == |t|;
    if s == [] {
    } else {
      HeadsAgree(b, s, t, d);
      TailMultiset(s);
      TailMultiset(t);
      ArrangedTail(b, s);
      ArrangedTail(b, t);
      ArrangementUnique(b, s[1..], t[1..], d);
      assert s == [s[0]] + s[1..] && t == [t[0]] + t[1..];
    }
  }

  // --------------------------------------------------- sorting by a comparator

  /** The strict part of a comparator. */
  function Strictly<T>(cmp: Comparator<T>): Before<T> {
    (x, y) => cmp(x, y) < 0.0
  }

  ghost predicate SignAntisymmetric<T(!new)>(cmp: Comparator<T>) {
    forall x, y :: cmp(x, y) < 0.0 <==> cmp(y, x) > 0.0
  }

  lemma OrderIsConsistent<T(!new)>(cmp: Comparator<T>, d: set<T>)
    requires SignAntisymmetric(cmp) && StrictTotal(Strictly(cmp), d)
    ensures Consistent(cmp, d)
  {
    var b := Strictly(cmp);
    forall x, y, z | x in d && y in d && z in d && Leq(cmp, x, y) && Leq(cmp, y, z) ensures Leq(cmp, x, z) {
      assert x == y || b(x, y);
      assert y == z || b(y, z);
    }
  }

  /** Sorting distinct elements by a strict total order arranges them. */
  lemma SortArranges<T(!new)>(cmp: Comparator<T>, s: seq<T>)
    requires SignAntisymmetric(cmp) && StrictTotal(Strictly(cmp), Elements(s)) && Distinct(s)
    ensures Arranged(Strictly(cmp), Sort(cmp, s))
  {
    var d, t, b := Elements(s), Sort(cmp, s), Strictly(cmp);
    OrderIsConsistent(cmp, d);
    SortSorts(cmp, s, d);
    DistinctPermutation(s, t);
    forall i, j | 0 <= i < j < |t| ensures b(t[i], t[j]) {
      assert Leq(cmp, t[i], t[j]) && t[i] != t[j];
      assert t[i] in d && t[j] in d;
    }
  }

  /**
   Distinct elements can be arranged exactly when the comparison is an order on them; the arrangement is then
   unique, and it is what sorting returns.
   */
  lemma ArrangementIff<T(!new)>(cmp: Comparator<T>, s: seq<T>)
    requires SignAntisymmetric(cmp) && Tournament(Strictly(cmp), Elements(s)) && Distinct(s)
    ensures HasArrangement(Strictly(cmp), s) <==> Transitive(Strictly(cmp), Elements(s))
    ensures Transitive(Strictly(cmp), Elements(s)) ==> OnlyArrangement(Strictly(cmp), s, Sort(cmp, s))
  {
    var b := Strictly(cmp);
    if Transitive(b, Elements(s)) {
      SortArranges(cmp, s);
      forall t | multiset(t) == multiset(s) && Arranged(b, t) ensures t == Sort(cmp, s) {
        DistinctPermutation(s, t);
        ArrangementUnique(b, t, Sort(cmp, s), Elements(s));
      }
    }
    if t :| multiset(t) == multiset(s) && Arranged(b, t) {
      DistinctPermutation(s, t);
      ArrangedIsTransitive(b, t);
    }
  }

  /** Comparing through an injective view is an order exactly when comparing the views is. */
  lemma ThroughView<T(!new), U(!new)>(cmp: Comparator<U>, view: T -> U, d: set<T>, e: set<U>)
    requires e == set x | x in d :: view(x)
    requires forall x, y :: x in d && y in d && view(x) == view(y) ==> x == y
    requires SignAntisymmetric(cmp) && Tournament(Strictly(cmp), e)
    ensures SignAntisymmetric(Through(cmp, view))
    ensures Tournament(Strictly(Through(cmp, view)), d)
    ensures Transitive(Strictly(Through(cmp, view)), d) <==> Transitive(Strictly(cmp), e)
  {
    var b, c := Strictly(Through(cmp, view)), Strictly(cmp);
    assert forall x, y :: b(x, y) == c(view(x), view(y));
    if Transitive(b, d) {
      forall u, v, w | u in e && v in e && w in e && c(u, v) && c(v, w) ensures c(u, w) {
        var x :| x in d && view(x) == u;
        var y :| y in d && view(y) == v;
        var z :| z in d && view(z) == w;
        assert b(x, y) && b(y, z);
      }
    }
  }

  /** The arrangement theorem for elements compared by a view that tells them apart. */
  lemma ViewArrangementIff<T(!new), U(!new)>(cmp: Comparator<U>, view: T -> U, s: seq<T>, e: set<U>)
    requires e == set x | x in Elements(s) :: view(x)
    requires Distinct(Map(s, view))
    requires SignAntisymmetric(cmp) && Tournament(Strictly(cmp), e)
    ensures HasArrangement(Strictly(Through(cmp, view)), s) <==> Transitive(Strictly(cmp), e)
    ensures Transitive(Strictly(cmp), e) ==>
              OnlyArrangement(Strictly(Through(cmp, view)), s, Sort(Through(cmp, view), s))
  {
    var views := Map(s, view);
    forall x, y | x in s && y in s && view(x) == view(y) ensures x == y {
      var i :| 0 <= i < |s| && s[i] == x;
      var j :| 0 <= j < |s| && s[j] == y;
      assert views[i] == views[j];
    }
    assert Distinct(s) by {
      forall i, j | 0 <= i < j < |s| ensures s[i] != s[j] {
        assert views[i] != views[j];
      }
    }
    ThroughView(cmp, view, Elements(s), e);
    ArrangementIff(Through(cmp, view), s);
  }
}
