/**
 Array.prototype.sort with a comparator. The language promises a stable, sorted reordering whenever the
 comparator is consistent; `Sort` is one such sort, and every other one returns the same list.
 */
module StableSort {
  import opened Sequences

  type Comparator<!T> = (T, T) -> real

  /** Compares elements by a view of them. */
  function Through<T, U>(cmp: Comparator<U>, view: T -> U): Comparator<T> {
    (x, y) => cmp(view(x), view(y))
  }

  predicate Leq<T>(cmp: Comparator<T>, x: T, y: T) {
    cmp(x, y) <= 0.0
  }

  /** The comparator is a total preorder on `d`. */
  ghost predicate Consistent<T(!new)>(cmp: Comparator<T>, d: set<T>) {
    && (forall x, y {:trigger cmp(x, y)} :: x in d && y in d ==> (cmp(x, y) < 0.0 <==> cmp(y, x) > 0.0))
    && (forall x, y, z {:trigger Leq(cmp, x, y), Leq(cmp, y, z)} ::
          x in d && y in d && z in d && Leq(cmp, x, y) && Leq(cmp, y, z) ==> Leq(cmp, x, z))
  }

  ghost predicate Sorted<T>(cmp: Comparator<T>, s: seq<T>) {
    forall i, j :: 0 <= i < j < |s| ==> Leq(cmp, s[i], s[j])
  }

  ghost predicate Within<T>(s: seq<T>, d: set<T>) {
    forall x :: x in s ==> x in d
  }

  /** Places `x` behind everything it does not strictly precede. */
  function Insert<T>(cmp: Comparator<T>, s: seq<T>, x: T): (r: seq<T>)
    ensures multiset(r) == multiset(s) + multiset{x}
  {
    if s == [] then [x]
    else if cmp(x, s[0]) < 0.0 then [x] + s
    else
      var rest := Insert(cmp, s[1..], x);
      assert s == [s[0]] + s[1..];
      [s[0]] + rest
  }

  function Sort<T>(cmp: Comparator<T>, s: seq<T>): (r: seq<T>)
    ensures multiset(r) == multiset(s)
    ensures |r| == |s|
  {
    if s == [] then []
    else
      var n := |s| - 1;
      assert s == s[..n] + [s[n]];
      var r := Insert(cmp, Sort(cmp, s[..n]), s[n]);
      assert |r| == |multiset(r)| == |multiset(s)|;
      r
  }

  lemma SameElements<T>(s: seq<T>, t: seq<T>, x: T)
    requires multiset(s) == multiset(t)
    ensures x in s <==> x in t
  {
    assert x in s <==> x in multiset(s);
    assert x in t <==> x in multiset(t);
  }

  lemma {:induction false} InsertSorted<T(!new)>(cmp: Comparator<T>, s: seq<T>, x: T, d: set<T>)
    requires Consistent(cmp, d) && Within(s, d) && x in d && Sorted(cmp, s)
    ensures Sorted(cmp, Insert(cmp, s, x))
  {
    if s == [] {
    } else if cmp(x, s[0]) < 0.0 {
      var r := [x] + s;
      forall i, j | 0 <= i < j < |r| ensures Leq(cmp, r[i], r[j]) {
        assert Leq(cmp, x, s[0]);
        if i == 0 && j > 1 {
          assert Leq(cmp, s[0], s[j - 1]);
        }
      }
    } else {
      InsertSorted(cmp, s[1..], x, d);
      var rest := Insert(cmp, s[1..], x);
      var r := [s[0]] + rest;
      forall i, j | 0 <= i < j < |r| ensures Leq(cmp, r[i], r[j]) {
        if i == 0 {
          assert r[j] == rest[j - 1] && rest[j - 1] in multiset(rest);
          assert rest[j - 1] == x || rest[j - 1] in s[1..];
        }
      }
    }
  }

  /** Sorting with a consistent comparator sorts. */
  lemma {:induction false} SortSorts<T(!new)>(cmp: Comparator<T>, s: seq<T>, d: set<T>)
    requires Consistent(cmp, d) && Within(s, d)
    ensures Sorted(cmp, Sort(cmp, s)) && Within(Sort(cmp, s), d)
  {
    forall x | x in Sort(cmp, s) ensures x in d {
      SameElements(Sort(cmp, s), s, x);
    }
    if s == [] {
    } else {
      SortSorts(cmp, s[..|s| - 1], d);
      InsertSorted(cmp, Sort(cmp, s[..|s| - 1]), s[|s| - 1], d);
    }
  }

  lemma {:induction false} InsertLast<T>(cmp: Comparator<T>, s: seq<T>, x: T)
    requires forall y :: y in s ==> !(cmp(x, y) < 0.0)
    ensures Insert(cmp, s, x) == s + [x]
  {
    if s == [] {
    } else {
      InsertLast(cmp, s[1..], x);
      assert [s[0]] + (s[1..] + [x]) == s + [x];
    }
  }

  lemma NotStrictlyAfter<T(!new)>(cmp: Comparator<T>, x: T, y: T, d: set<T>)
    requires Consistent(cmp, d) && x in d && y in d && Leq(cmp, x, y)
    ensures !(cmp(y, x) < 0.0)
  {
  }

  /** A list that is already in order is left alone. */
  lemma {:induction false} SortFixed<T(!new)>(cmp: Comparator<T>, s: seq<T>, d: set<T>)
    requires Consistent(cmp, d) && Within(s, d) && Sorted(cmp, s)
    ensures Sort(cmp, s) == s
  {
    hide Consistent;
    hide Sort;
    SortStep(cmp, s);
    if s == [] {
    } else {
      var n := |s| - 1;
      SortFixed(cmp, s[..n], d);
      NoneFollows(cmp, s[..n], s[n], d);
      InsertLast(cmp, s[..n], s[n]);
      assert s[..n] + [s[n]] == s;
    }
  }

  lemma NoneFollows<T(!new)>(cmp: Comparator<T>, s: seq<T>, x: T, d: set<T>)
    requires Consistent(cmp, d) && Within(s, d) && x in d && forall i :: 0 <= i < |s| ==> Leq(cmp, s[i], x)
    ensures forall y :: y in s ==> !(cmp(x, y) < 0.0)
  {
    hide Consistent;
    forall y | y in s ensures !(cmp(x, y) < 0.0) {
      var k :| 0 <= k < |s| && s[k] == y;
      NotStrictlyAfter(cmp, s[k], x, d);
    }
  }

  // ---------------------------------------------------------------- stability

  /** The elements tied with `x`, in the order they stand. */
  function Ties<T>(cmp: Comparator<T>, x: T, s: seq<T>): seq<T> {
    Filter(s, y => cmp(x, y) == 0.0)
  }

  ghost predicate Stable<T(!new)>(cmp: Comparator<T>, s: seq<T>, t: seq<T>) {
    forall x :: x in s ==> Ties(cmp, x, s) == Ties(cmp, x, t)
  }

  lemma {:induction false} InsertTies<T(!new)>(cmp: Comparator<T>, s: seq<T>, x: T, w: T, d: set<T>)
    requires Consistent(cmp, d) && Within(s, d) && x in d && w in d && Sorted(cmp, s)
    ensures Ties(cmp, w, Insert(cmp, s, x)) == Ties(cmp, w, s) + if cmp(w, x) == 0.0 then [x] else []
  {
    if s == [] {
    } else if cmp(x, s[0]) < 0.0 {
      InsertTiesFront(cmp, s, x, w, d);
    } else {
      hide Consistent;
      TailSorted(cmp, s);
      InsertTies(cmp, s[1..], x, w, d);
      var rest := Insert(cmp, s[1..], x);
      assert ([s[0]] + rest)[1..] == rest;
    }
  }

  lemma TailSorted<T>(cmp: Comparator<T>, s: seq<T>)
    requires s != [] && Sorted(cmp, s)
    ensures Sorted(cmp, s[1..])
  {
  }

  lemma InsertTiesFront<T(!new)>(cmp: Comparator<T>, s: seq<T>, x: T, w: T, d: set<T>)
    requires Consistent(cmp, d) && Within(s, d) && x in d && w in d && Sorted(cmp, s)
    requires s != [] && cmp(x, s[0]) < 0.0
    ensures Ties(cmp, w, [x] + s) == Ties(cmp, w, s) + if cmp(w, x) == 0.0 then [x] else []
  {
    hide Consistent;
    hide Sorted;
    if cmp(w, x) == 0.0 {
      forall y | y in s ensures cmp(w, y) != 0.0 {
        TiedApart(cmp, s, x, w, y, d);
      }
      FilterNone(s, y => cmp(w, y) == 0.0);
    }
    assert ([x] + s)[1..] == s;
  }

  lemma TiedApart<T(!new)>(cmp: Comparator<T>, s: seq<T>, x: T, w: T, y: T, d: set<T>)
    requires Consistent(cmp, d) && Within(s, d) && x in d && w in d && Sorted(cmp, s)
    requires s != [] && cmp(x, s[0]) < 0.0 && cmp(w, x) == 0.0 && y in s
    ensures cmp(w, y) != 0.0
  {
    var k :| 0 <= k < |s| && s[k] == y;
    assert k > 0 ==> Leq(cmp, s[0], y);
    if cmp(w, y) == 0.0 {
      assert cmp(y, w) == 0.0;
      assert Leq(cmp, y, w) && Leq(cmp, w, x);
    }
  }

  lemma TiesAppend<T>(cmp: Comparator<T>, w: T, s: seq<T>, x: T)
    ensures Ties(cmp, w, s + [x]) == Ties(cmp, w, s) + if cmp(w, x) == 0.0 then [x] else []
  {
    FilterAppend(s, [x], y => cmp(w, y) == 0.0);
  }

  lemma TiesHead<T>(cmp: Comparator<T>, w: T, s: seq<T>)
    requires s != []
    ensures Ties(cmp, w, s) == (if cmp(w, s[0]) == 0.0 then [s[0]] else []) + Ties(cmp, w, s[1..])
  {
  }

  lemma SortStep<T>(cmp: Comparator<T>, s: seq<T>)
    ensures s == [] ==> Sort(cmp, s) == []
    ensures s != [] ==> Sort(cmp, s) == Insert(cmp, Sort(cmp, s[..|s| - 1]), s[|s| - 1])
  {
  }

  lemma NoTies<T>(cmp: Comparator<T>, w: T)
    ensures Ties(cmp, w, []) == []
  {
  }

  /** Tied elements keep the order they came in. */
  lemma {:induction false} SortTies<T(!new)>(cmp: Comparator<T>, s: seq<T>, w: T, d: set<T>)
    requires Consistent(cmp, d) && Within(s, d) && w in d
    ensures Ties(cmp, w, Sort(cmp, s)) == Ties(cmp, w, s)
  {
    hide Consistent;
    hide Sorted;
    hide Ties;
    hide Sort;
    hide Insert;
    SortStep(cmp, s);
    if s == [] {
      NoTies(cmp, w);
    } else {
      var n := |s| - 1;
      SortTies(cmp, s[..n], w, d);
      SortSorts(cmp, s[..n], d);
      InsertTies(cmp, Sort(cmp, s[..n]), s[n], w, d);
      assert s == s[..n] + [s[n]];
      TiesAppend(cmp, w, s[..n], s[n]);
    }
  }

  lemma SortIsStable<T(!new)>(cmp: Comparator<T>, s: seq<T>, d: set<T>)
    requires Consistent(cmp, d) && Within(s, d)
    ensures Stable(cmp, s, Sort(cmp, s))
  {
    forall x | x in s ensures Ties(cmp, x, s) == Ties(cmp, x, Sort(cmp, s)) {
      SortTies(cmp, s, x, d);
    }
  }

  lemma HeadFirst<T(!new)>(cmp: Comparator<T>, s: seq<T>, t: seq<T>, d: set<T>)
    requires s != [] && t != [] && multiset(s) == multiset(t)
    requires Consistent(cmp, d) && Within(s, d)
    requires Sorted(cmp, s) && Sorted(cmp, t) && Stable(cmp, s, t)
    ensures s[0] == t[0]
  {
    SameElements(s, t, s[0]);
    SameElements(s, t, t[0]);
    var i :| 0 <= i < |t| && t[i] == s[0];
    var k :| 0 <= k < |s| && s[k] == t[0];
    assert cmp(s[0], s[0]) == 0.0;
    assert i > 0 ==> Leq(cmp, t[0], s[0]);
    assert k > 0 ==> Leq(cmp, s[0], t[0]);
    assert cmp(s[0], t[0]) == 0.0;
    assert Ties(cmp, s[0], s)[0] == s[0];
    assert Ties(cmp, s[0], t)[0] == t[0];
  }

  lemma StableTail<T(!new)>(cmp: Comparator<T>, s: seq<T>, t: seq<T>)
    requires s != [] && t != [] && s[0] == t[0] && Stable(cmp, s, t)
    ensures Stable(cmp, s[1..], t[1..])
  {
    forall x | x in s[1..] ensures Ties(cmp, x, s[1..]) == Ties(cmp, x, t[1..]) {
      TiesHead(cmp, x, s);
      TiesHead(cmp, x, t);
      var h := if cmp(x, s[0]) == 0.0 then [s[0]] else [];
      assert (h + Ties(cmp, x, s[1..]))[|h|..] == (h + Ties(cmp, x, t[1..]))[|h|..];
    }
  }

  /** There is only one stable sorted reordering, so any conforming sort returns it. */
  lemma {:induction false} StableSortedUnique<T(!new)>(cmp: Comparator<T>, s: seq<T>, t: seq<T>, d: set<T>)
    requires multiset(s) == multiset(t) && Consistent(cmp, d) && Within(s, d)
    requires Sorted(cmp, s) && Sorted(cmp, t) && Stable(cmp, s, t)
    ensures s == t
  {
    hide Consistent;
    hide Stable;
    assert |s| == |multiset(s)| == |multiset(t)| == |t|;
    if s == [] {
    } else {
      HeadFirst(cmp, s, t, d);
      StableTail(cmp, s, t);
      TailMultiset(s);
      TailMultiset(t);
      StableSortedUnique(cmp, s[1..], t[1..], d);
      assert s == [s[0]] + s[1..] && t == [t[0]] + t[1..];
    }
  }

  // ----------------------------------------------------------- sorting by rank

  /** The comparator puts higher ranks first and ties equal ranks; ranks are below `n`. */
  ghost predicate RanksBelow<T(!new)>(cmp: Comparator<T>, rank: T -> nat, n: nat) {
    forall x, y :: rank(x) < n && (cmp(x, y) < 0.0 <==> rank(x) > rank(y)) && (cmp(x, y) > 0.0 <==> rank(x) < rank(y))
  }

  /** The elements of one rank, in their order. */
  function OfRank<T>(s: seq<T>, rank: T -> nat, r: int): seq<T> {
    Filter(s, x => rank(x) == r)
  }

  /** The elements of each rank below `n`, in their order, highest rank first. */
  function Buckets<T>(s: seq<T>, rank: T -> nat, n: nat): seq<T> {
    if n == 0 then [] else OfRank(s, rank, n - 1) + Buckets(s, rank, n - 1)
  }

  lemma RankIsConsistent<T(!new)>(cmp: Comparator<T>, rank: T -> nat, n: nat, d: set<T>)
    requires RanksBelow(cmp, rank, n)
    ensures Consistent(cmp, d)
  {
    forall x, y, z | Leq(cmp, x, y) && Leq(cmp, y, z) ensures Leq(cmp, x, z) {
      assert rank(x) >= rank(y) >= rank(z);
    }
  }

  lemma {:induction false} BucketsSorted<T(!new)>(cmp: Comparator<T>, s: seq<T>, rank: T -> nat, n: nat, m: nat)
    requires RanksBelow(cmp, rank, n) && m <= n
    ensures Sorted(cmp, Buckets(s, rank, m))
    ensures forall x :: x in Buckets(s, rank, m) ==> rank(x) < m && x in s
  {
    if m == 0 {
    } else {
      BucketsSorted(cmp, s, rank, n, m - 1);
      var a, b := OfRank(s, rank, m - 1), Buckets(s, rank, m - 1);
      forall i, j | 0 <= i < j < |a + b| ensures Leq(cmp, (a + b)[i], (a + b)[j]) {
        if j < |a| {
          assert a[i] in a && a[j] in a;
        } else if i < |a| {
          assert a[i] in a && b[j - |a|] in b;
        }
      }
    }
  }

  lemma {:induction false} BucketOf<T>(s: seq<T>, rank: T -> nat, m: nat, r: nat)
    ensures OfRank(Buckets(s, rank, m), rank, r) == if r < m then OfRank(s, rank, r) else []
  {
    if m == 0 {
    } else {
      BucketOf(s, rank, m - 1, r);
      var a := OfRank(s, rank, m - 1);
      FilterAppend(a, Buckets(s, rank, m - 1), x => rank(x) == r);
      if r == m - 1 {
        FilterAll(a, x => rank(x) == r);
      } else {
        FilterNone(a, x => rank(x) == r);
      }
    }
  }

  lemma {:induction false} SameBuckets<T(!new)>(s: seq<T>, t: seq<T>, rank: T -> nat)
    requires forall r: nat :: OfRank(s, rank, r) == OfRank(t, rank, r)
    ensures multiset(s) == multiset(t)
  {
    forall x: T ensures multiset(s)[x] == multiset(t)[x] {
      FilterMultiset(s, y => rank(y) == rank(x), x);
      FilterMultiset(t, y => rank(y) == rank(x), x);
      assert OfRank(s, rank, rank(x)) == OfRank(t, rank, rank(x));
    }
  }

  /** A stable sort by a small rank is the concatenation of the rank's buckets. */
  lemma SortIsBuckets<T(!new)>(cmp: Comparator<T>, s: seq<T>, rank: T -> nat, n: nat)
    requires RanksBelow(cmp, rank, n)
    ensures Sort(cmp, s) == Buckets(s, rank, n)
  {
    var t, u, d := Sort(cmp, s), Buckets(s, rank, n), Elements(s);
    RankIsConsistent(cmp, rank, n, d);
    SortSorts(cmp, s, d);
    SortIsStable(cmp, s, d);
    BucketsSorted(cmp, s, rank, n, n);
    forall r: nat ensures OfRank(s, rank, r) == OfRank(u, rank, r) {
      BucketOf(s, rank, n, r);
      if r >= n { FilterNone(s, x => rank(x) == r); }
    }
    SameBuckets(s, u, rank);
    forall x | x in t ensures Ties(cmp, x, t) == Ties(cmp, x, u) {
      SameElements(s, t, x);
      TiesAreBucket(cmp, s, rank, n, x);
      TiesAreBucket(cmp, u, rank, n, x);
      assert OfRank(s, rank, rank(x)) == OfRank(u, rank, rank(x));
    }
    StableSortedUnique(cmp, t, u, d);
  }

  lemma TiesAreBucket<T(!new)>(cmp: Comparator<T>, s: seq<T>, rank: T -> nat, n: nat, x: T)
    requires RanksBelow(cmp, rank, n)
    ensures Ties(cmp, x, s) == OfRank(s, rank, rank(x))
  {
    FilterCongruent(s, y => cmp(x, y) == 0.0, y => rank(y) == rank(x));
  }
}
