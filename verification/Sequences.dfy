/** Counting, filtering and pigeonhole facts about sequences, shared by every other module. */
module Sequences {

  datatype Option<+T> = None | Some(value: T)

  datatype Result<+T, +E> = Success(value: T) | Failure(error: E)

  predicate Distinct<T(==)>(s: seq<T>) {
    forall i, j :: 0 <= i < j < |s| ==> s[i] != s[j]
  }

  function Elements<T>(s: seq<T>): set<T> {
    set x | x in s
  }

  function Filter<T>(s: seq<T>, p: T -> bool): (r: seq<T>)
    ensures |r| <= |s|
    ensures forall x :: x in r ==> x in s && p(x)
    ensures forall x :: x in s && p(x) ==> x in r
  {
    if s == [] then []
    else if p(s[0]) then [s[0]] + Filter(s[1..], p)
    else Filter(s[1..], p)
  }

  function Map<T, U>(s: seq<T>, f: T -> U): (r: seq<U>)
    ensures |r| == |s|
    ensures forall i :: 0 <= i < |s| ==> r[i] == f(s[i])
  {
    if s == [] then [] else [f(s[0])] + Map(s[1..], f)
  }

  function Count<T>(s: seq<T>, p: T -> bool): nat {
    |Filter(s, p)|
  }

  /** The first element satisfying `p`, as Array.prototype.find returns it. */
  function Find<T>(s: seq<T>, p: T -> bool): (r: Option<T>)
    ensures r.Some? ==> r.value in s && p(r.value)
    ensures r.None? ==> forall x :: x in s ==> !p(x)
  {
    if s == [] then None
    else if p(s[0]) then Some(s[0])
    else Find(s[1..], p)
  }

  /** The first index of an element, or the length of the list. */
  function IndexOf<T(==)>(s: seq<T>, x: T): (i: nat)
    ensures i <= |s|
    ensures i < |s| ==> s[i] == x
    ensures i == |s| ==> x !in s
  {
    if s == [] then 0 else if s[0] == x then 0 else 1 + IndexOf(s[1..], x)
  }

  function SumBy<T>(s: seq<T>, f: T -> int): int {
    if s == [] then 0 else f(s[0]) + SumBy(s[1..], f)
  }

  /** Array.prototype.slice(0, n) for a count that is not negative. */
  function Take<T>(s: seq<T>, n: nat): seq<T> {
    if n <= |s| then s[..n] else s
  }

  // ---------------------------------------------------------------- filters

  lemma {:induction false} FilterAppend<T>(s: seq<T>, t: seq<T>, p: T -> bool)
    ensures Filter(s + t, p) == Filter(s, p) + Filter(t, p)
  {
    if s == [] {
      assert s + t == t;
    } else {
      assert (s + t)[1..] == s[1..] + t;
      FilterAppend(s[1..], t, p);
    }
  }

  lemma {:induction false} FilterAll<T>(s: seq<T>, p: T -> bool)
    requires forall x :: x in s ==> p(x)
    ensures Filter(s, p) == s
  {
    if s == [] {
    } else {
      FilterAll(s[1..], p);
    }
  }

  lemma {:induction false} FilterNone<T>(s: seq<T>, p: T -> bool)
    requires forall x :: x in s ==> !p(x)
    ensures Filter(s, p) == []
  {
    if s == [] {
    } else {
      FilterNone(s[1..], p);
    }
  }

  lemma {:induction false} FilterCongruent<T>(s: seq<T>, p: T -> bool, q: T -> bool)
    requires forall x :: x in s ==> p(x) == q(x)
    ensures Filter(s, p) == Filter(s, q)
  {
    if s == [] {
    } else {
      FilterCongruent(s[1..], p, q);
    }
  }

  /** Filtering twice keeps what passes both tests, in order. */
  lemma {:induction false} FilterFilter<T>(s: seq<T>, p: T -> bool, q: T -> bool, both: T -> bool)
    requires forall x :: x in s ==> both(x) == (p(x) && q(x))
    ensures Filter(Filter(s, p), q) == Filter(s, both)
  {
    if s == [] {
    } else {
      FilterFilter(s[1..], p, q, both);
      if p(s[0]) {
        assert Filter(s, p)[1..] == Filter(s[1..], p);
      }
    }
  }

  lemma {:induction false} FilterMap<T, U>(s: seq<T>, f: T -> U, p: T -> bool, q: U -> bool)
    requires forall x :: x in s ==> p(x) == q(f(x))
    ensures Filter(Map(s, f), q) == Map(Filter(s, p), f)
  {
    if s == [] {
    } else {
      assert Map(s, f)[1..] == Map(s[1..], f);
      FilterMap(s[1..], f, p, q);
    }
  }

  lemma FilterMultiset<T>(s: seq<T>, p: T -> bool, x: T)
    ensures multiset(Filter(s, p))[x] == if p(x) then multiset(s)[x] else 0
  {
    if s == [] {
    } else {
      FilterMultiset(s[1..], p, x);
      assert s == [s[0]] + s[1..];
    }
  }

  lemma FilterPermutation<T(!new)>(s: seq<T>, t: seq<T>, p: T -> bool)
    requires multiset(s) == multiset(t)
    ensures multiset(Filter(s, p)) == multiset(Filter(t, p))
    ensures Count(s, p) == Count(t, p)
  {
    var a, b := multiset(Filter(s, p)), multiset(Filter(t, p));
    forall x: T ensures a[x] == b[x] {
      FilterMultiset(s, p, x);
      FilterMultiset(t, p, x);
    }
    assert a == b;
    assert |a| == |b|;
  }

  /** Two exclusive tests count at most what their disjunction counts; exactly that when it is their union. */
  lemma {:induction false} CountSplit<T>(s: seq<T>, p: T -> bool, q: T -> bool, either: T -> bool)
    requires forall x :: x in s ==> !(p(x) && q(x)) && either(x) == (p(x) || q(x))
    ensures Count(s, either) == Count(s, p) + Count(s, q)
  {
    if s == [] {
    } else {
      CountSplit(s[1..], p, q, either);
    }
  }

  lemma {:induction false} CountMonotone<T>(s: seq<T>, p: T -> bool, q: T -> bool)
    requires forall x :: x in s && p(x) ==> q(x)
    ensures Count(s, p) <= Count(s, q)
  {
    if s == [] {
    } else {
      CountMonotone(s[1..], p, q);
    }
  }

  lemma {:induction false} MapAppend<T, U>(s: seq<T>, t: seq<T>, f: T -> U)
    ensures Map(s + t, f) == Map(s, f) + Map(t, f)
  {
    if s == [] {
      assert s + t == t;
    } else {
      assert (s + t)[1..] == s[1..] + t;
      MapAppend(s[1..], t, f);
    }
  }

  lemma {:induction false} MapPermutation<T, U>(s: seq<T>, t: seq<T>, f: T -> U)
    requires multiset(s) == multiset(t)
    ensures multiset(Map(s, f)) == multiset(Map(t, f))
  {
    if s == [] {
      assert |t| == |multiset(t)| == |multiset(s)| == 0;
    } else {
      var k := Withdraw(s, t);
      MapPermutation(s[1..], t[..k] + t[k + 1..], f);
      MapAppend(t[..k], t[k + 1..], f);
      MapAppend(t[..k], [t[k]] + t[k + 1..], f);
    }
  }

  /** Where the head of a list stands in a reordering of it; without it the rest is still a reordering. */
  lemma Withdraw<T>(s: seq<T>, t: seq<T>) returns (k: nat)
    requires s != [] && multiset(s) == multiset(t)
    ensures k < |t| && t[k] == s[0]
    ensures t == t[..k] + ([t[k]] + t[k + 1..])
    ensures multiset(s[1..]) == multiset(t[..k] + t[k + 1..])
  {
    assert s == [s[0]] + s[1..];
    assert s[0] in multiset(t);
    k :| 0 <= k < |t| && t[k] == s[0];
    assert t == t[..k] + ([t[k]] + t[k + 1..]);
    var rest := t[..k] + t[k + 1..];
    assert multiset(t) == multiset(t[..k]) + multiset{t[k]} + multiset(t[k + 1..]);
    assert multiset(s) == multiset{s[0]} + multiset(s[1..]);
    assert multiset(rest) == multiset(t) - multiset{s[0]};
  }

  lemma {:induction false} FindMap<T, U>(s: seq<T>, f: T -> U, p: T -> bool, q: U -> bool)
    requires forall x :: x in s ==> p(x) == q(f(x))
    ensures Find(Map(s, f), q) == if Find(s, p).Some? then Some(f(Find(s, p).value)) else None
  {
    if s == [] {
    } else {
      assert Map(s, f)[1..] == Map(s[1..], f);
      FindMap(s[1..], f, p, q);
    }
  }

  /** With distinct keys, looking a key up finds its one holder, wherever it stands. */
  lemma {:induction false} FindByKey<T, K>(s: seq<T>, key: T -> K, x: T, p: T -> bool)
    requires x in s && Distinct(Map(s, key))
    requires forall y :: y in s ==> p(y) == (key(y) == key(x))
    ensures Find(s, p) == Some(x)
  {
    var y := Find(s, p).value;
    var i :| 0 <= i < |s| && s[i] == x;
    var j :| 0 <= j < |s| && s[j] == y;
    assert Map(s, key)[i] == Map(s, key)[j];
  }

  lemma TailMultiset<T>(s: seq<T>)
    requires s != []
    ensures multiset(s[1..]) == multiset(s) - multiset{s[0]}
  {
    assert s == [s[0]] + s[1..];
  }

  lemma FilterMapStep<T, U>(s: seq<T>, i: nat, f: T -> U, p: U -> bool)
    requires i < |s|
    ensures Filter(Map(s[..i + 1], f), p) ==
            Filter(Map(s[..i], f), p) + if p(f(s[i])) then [f(s[i])] else []
  {
    assert s[..i + 1] == s[..i] + [s[i]];
    MapAppend(s[..i], [s[i]], f);
    var one := Map([s[i]], f);
    assert one == [f(s[i])];
    FilterAppend(Map(s[..i], f), one, p);
    assert one[1..] == [];
  }

  lemma OriginOf<T, U>(s: seq<T>, f: T -> U, p: U -> bool, y: U) returns (i: nat)
    requires y in Filter(Map(s, f), p)
    ensures i < |s| && y == f(s[i]) && p(y)
  {
    assert y in Map(s, f);
    i :| 0 <= i < |s| && Map(s, f)[i] == y;
  }

  /** A view that keeps a distinct key tells the elements apart. */
  lemma DistinctView<T, U(!new), K>(s: seq<T>, view: T -> U, key: T -> K, viewKey: U -> K)
    requires Distinct(Map(s, key)) && forall x :: x in s ==> viewKey(view(x)) == key(x)
    ensures Distinct(Map(s, view))
    ensures forall u, v :: u in Map(s, view) && v in Map(s, view) && viewKey(u) == viewKey(v) ==> u == v
  {
    var keys, views := Map(s, key), Map(s, view);
    assert forall i :: 0 <= i < |s| ==> s[i] in s && viewKey(views[i]) == keys[i];
  }

  // ------------------------------------------------------------------- sums

  lemma {:induction false} SumByAppend<T>(s: seq<T>, t: seq<T>, f: T -> int)
    ensures SumBy(s + t, f) == SumBy(s, f) + SumBy(t, f)
  {
    if s == [] {
      assert s + t == t;
    } else {
      assert (s + t)[1..] == s[1..] + t;
      SumByAppend(s[1..], t, f);
    }
  }

  lemma {:induction false} SumByPermutation<T>(s: seq<T>, t: seq<T>, f: T -> int)
    requires multiset(s) == multiset(t)
    ensures SumBy(s, f) == SumBy(t, f)
  {
    if s == [] {
      assert |t| == |multiset(t)| == |multiset(s)| == 0;
    } else {
      var k := Withdraw(s, t);
      SumByPermutation(s[1..], t[..k] + t[k + 1..], f);
      SumByAppend(t[..k], t[k + 1..], f);
      SumByAppend(t[..k], [t[k]] + t[k + 1..], f);
    }
  }

  lemma {:induction false} SumByMonotone<T>(s: seq<T>, f: T -> int, g: T -> int)
    requires forall x :: x in s ==> f(x) <= g(x)
    ensures SumBy(s, f) <= SumBy(s, g)
  {
    if s == [] {
    } else {
      SumByMonotone(s[1..], f, g);
    }
  }

  lemma SumByCongruent<T>(s: seq<T>, f: T -> int, g: T -> int)
    requires forall x :: x in s ==> f(x) == g(x)
    ensures SumBy(s, f) == SumBy(s, g)
  {
    SumByMonotone(s, f, g);
    SumByMonotone(s, g, f);
  }

  lemma {:induction false} SumByMap<T, U>(s: seq<T>, f: T -> U, g: U -> int, h: T -> int)
    requires forall x :: x in s ==> h(x) == g(f(x))
    ensures SumBy(Map(s, f), g) == SumBy(s, h)
  {
    if s == [] {
    } else {
      assert Map(s, f)[1..] == Map(s[1..], f);
      SumByMap(s[1..], f, g, h);
    }
  }

  /** Sums add: with weights a and b, the sum of `a*f + b*g` is that combination of the sums. */
  lemma {:induction false} SumByLinear<T>(s: seq<T>, a: int, f: T -> int, b: int, g: T -> int, h: T -> int)
    requires forall x :: x in s ==> h(x) == a * f(x) + b * g(x)
    ensures SumBy(s, h) == a * SumBy(s, f) + b * SumBy(s, g)
  {
    if s == [] {
    } else {
      SumByLinear(s[1..], a, f, b, g, h);
    }
  }

  // ----------------------------------------------------------- pigeonholes

  lemma DistinctHead<T>(s: seq<T>)
    requires s != []
    ensures Distinct(s) <==> s[0] !in s[1..] && Distinct(s[1..])
    ensures Elements(s) == {s[0]} + Elements(s[1..])
  {
    var rest := s[1..];
    assert s == [s[0]] + rest;
    assert forall k :: 0 <= k < |rest| ==> rest[k] == s[k + 1];
    if Distinct(s) {
      forall i, j | 0 <= i < j < |rest| ensures rest[i] != rest[j] {
        assert rest[i] == s[i + 1] && rest[j] == s[j + 1];
      }
    }
    if s[0] !in rest && Distinct(rest) {
      forall i, j | 0 <= i < j < |s| ensures s[i] != s[j] {
        assert s[j] == rest[j - 1] && (i > 0 ==> s[i] == rest[i - 1]);
      }
    }
  }

  /** `new Set(s).size === s.length`, the repository's test for repeated values, is distinctness. */
  lemma {:induction false} SetSizeIsDistinct<T>(s: seq<T>)
    ensures |Elements(s)| <= |s|
    ensures |Elements(s)| == |s| <==> Distinct(s)
  {
    if s == [] {
    } else {
      hide Distinct;
      var rest := s[1..];
      SetSizeIsDistinct(rest);
      DistinctHead(s);
      if s[0] in rest {
        assert Elements(s) == Elements(rest);
      } else {
        assert |Elements(s)| == 1 + |Elements(rest)|;
      }
    }
  }

  lemma DistinctAppend<T>(s: seq<T>, x: T)
    ensures Distinct(s + [x]) <==> Distinct(s) && x !in s
    ensures Elements(s + [x]) == Elements(s) + {x}
  {
    var r := s + [x];
    if Distinct(r) {
      forall i, j | 0 <= i < j < |s| ensures s[i] != s[j] {
        assert r[i] == s[i] && r[j] == s[j];
      }
      forall i | 0 <= i < |s| ensures s[i] != x {
        assert r[i] == s[i] && r[|s|] == x;
      }
    }
  }

  lemma DistinctPrefix<T>(s: seq<T>, i: nat)
    requires i <= |s|
    ensures Distinct(s) ==> Distinct(s[..i])
  {
  }

  lemma DistinctSubset<T>(a: seq<T>, b: seq<T>)
    requires Distinct(a)
    requires forall x :: x in a ==> x in b
    ensures |a| <= |b|
  {
    SetSizeIsDistinct(a);
    SetSizeIsDistinct(b);
    SubsetSize(Elements(a), Elements(b));
  }

  lemma {:induction false} SubsetSize<T>(a: set<T>, b: set<T>)
    requires a <= b
    ensures |a| <= |b|
  {
    assert b == a + (b - a);
  }

  lemma {:induction false} DistinctMultiset<T>(s: seq<T>, x: T)
    requires Distinct(s)
    ensures multiset(s)[x] == if x in s then 1 else 0
  {
    if s == [] {
    } else {
      var rest := s[1..];
      assert s == [s[0]] + rest;
      assert Distinct(rest) by {
        forall i, j | 0 <= i < j < |rest| ensures rest[i] != rest[j] {
          assert rest[i] == s[i + 1] && rest[j] == s[j + 1];
        }
      }
      DistinctMultiset(rest, x);
      assert s[0] !in rest;
    }
  }

  /** Pigeonhole: distinct values drawn from an equally long distinct list are that list, reordered. */
  lemma Pigeonhole<T(!new)>(a: seq<T>, b: seq<T>)
    requires Distinct(a) && Distinct(b) && |a| == |b|
    requires forall x :: x in a ==> x in b
    ensures multiset(a) == multiset(b)
    ensures forall x :: x in b ==> x in a
  {
    SetSizeIsDistinct(a);
    SetSizeIsDistinct(b);
    var A, B := Elements(a), Elements(b);
    assert A <= B;
    assert B == A + (B - A);
    assert |B| == |A| + |B - A|;
    assert A == B;
    forall x | x in b ensures x in a { assert x in B; }
    forall x: T | x in multiset(a) || x in multiset(b) ensures multiset(a)[x] == multiset(b)[x] {
      DistinctMultiset(a, x);
      DistinctMultiset(b, x);
    }
  }

  lemma DistinctPermutation<T(!new)>(a: seq<T>, b: seq<T>)
    requires multiset(a) == multiset(b) && Distinct(a)
    ensures Distinct(b)
    ensures Elements(a) == Elements(b)
  {
    forall x: T ensures x in a <==> x in b {
      assert x in a <==> x in multiset(a);
      assert x in b <==> x in multiset(b);
    }
    assert |a| == |multiset(a)| == |multiset(b)| == |b|;
    assert Elements(a) == Elements(b);
    SetSizeIsDistinct(a);
    SetSizeIsDistinct(b);
  }

  lemma {:induction false} FilterDistinct<T>(s: seq<T>, p: T -> bool)
    requires Distinct(s)
    ensures Distinct(Filter(s, p))
  {
    if s == [] {
    } else {
      var rest := s[1..];
      assert forall i, j :: 0 <= i < j < |rest| ==> rest[i] == s[i + 1] && rest[j] == s[j + 1];
      FilterDistinct(rest, p);
      var kept := Filter(rest, p);
      if p(s[0]) {
        assert s[0] !in rest;
        assert s[0] !in kept;
        var r := [s[0]] + kept;
        forall i, j | 0 <= i < j < |r| ensures r[i] != r[j] {
          assert r[j] == kept[j - 1];
          if i > 0 { assert r[i] == kept[i - 1]; }
        }
      }
    }
  }

  /** A filtered list keeps its keys distinct. */
  lemma {:induction false} FilterKeys<T, K>(s: seq<T>, p: T -> bool, key: T -> K)
    requires Distinct(Map(s, key))
    ensures Distinct(Map(Filter(s, p), key))
  {
    if s == [] {
    } else {
      var rest := s[1..];
      assert Map(s, key) == [key(s[0])] + Map(rest, key);
      assert forall i :: 0 <= i < |rest| ==> Map(rest, key)[i] == Map(s, key)[i + 1];
      FilterKeys(rest, p, key);
      if p(s[0]) {
        var kept := Filter(rest, p);
        var r := Map([s[0]] + kept, key);
        forall i, j | 0 <= i < j < |r| ensures r[i] != r[j] {
          assert r[j] == Map(kept, key)[j - 1];
          if i == 0 {
            assert kept[j - 1] in rest;
            var k :| 0 <= k < |rest| && rest[k] == kept[j - 1];
            assert Map(s, key)[k + 1] == r[j];
          } else {
            assert r[i] == Map(kept, key)[i - 1];
          }
        }
      }
    }
  }
}
