/**
 * The collection operations the modelled queries are built from: a stable
 * sort by an integer key (Mongo's `.sort({...})`, `Array.prototype.sort` with a
 * numeric comparator), counting and summing over a sequence, and
 * first-occurrence de-duplication (`Array.from(new Set(...))`).
 */
module Sorting {

  /** Non-decreasing in `key`. A descending order is expressed with a negated key. */
  ghost predicate SortedBy<T>(s: seq<T>, key: T -> int) {
    forall i, j :: 0 <= i < j < |s| ==> key(s[i]) <= key(s[j])
  }

  /** Places `x` before the first element whose key is not smaller, so equal keys keep their order. */
  function Insert<T>(x: T, s: seq<T>, key: T -> int): (r: seq<T>)
    ensures multiset(r) == multiset(s) + multiset{x}
    ensures |r| == |s| + 1 && (r[0] == x || (s != [] && r[0] == s[0]))
  {
    if s == [] || key(x) <= key(s[0]) then [x] + s
    else
      var rest := Insert(x, s[1..], key);
      assert s == [s[0]] + s[1..];
      [s[0]] + rest
  }

  /** A bound below `x` and every element of `s` is a bound below every element of the insertion. */
  lemma {:induction false} InsertLowerBound<T>(x: T, s: seq<T>, key: T -> int, b: int)
    requires b <= key(x) && forall k :: 0 <= k < |s| ==> b <= key(s[k])
    ensures forall k :: 0 <= k < |Insert(x, s, key)| ==> b <= key(Insert(x, s, key)[k])
  {
    if s != [] && key(x) > key(s[0]) {
      InsertLowerBound(x, s[1..], key, b);
    }
  }

  /** Inserting into a sorted sequence keeps it sorted. */
  lemma {:induction false} InsertSorted<T>(x: T, s: seq<T>, key: T -> int)
    requires SortedBy(s, key)
    ensures SortedBy(Insert(x, s, key), key)
  {
    if s != [] && key(x) > key(s[0]) {
      var rest := Insert(x, s[1..], key);
      InsertSorted(x, s[1..], key);
      InsertLowerBound(x, s[1..], key, key(s[0]));
      var r := Insert(x, s, key);
      assert r == [s[0]] + rest;
      forall i, j | 0 <= i < j < |r|
        ensures key(r[i]) <= key(r[j])
      {
        assert r[j] == rest[j - 1];
        if i > 0 {
          assert r[i] == rest[i - 1];
        }
      }
    }
  }

  /** Insertion sort: a stable sort of `s` by `key`, smallest key first. */
  function SortBy<T>(s: seq<T>, key: T -> int): (r: seq<T>)
    ensures multiset(r) == multiset(s)
    ensures SortedBy(r, key)
  {
    if s == [] then []
    else
      assert s == [s[0]] + s[1..];
      InsertSorted(s[0], SortBy(s[1..], key), key);
      Insert(s[0], SortBy(s[1..], key), key)
  }

  /** Sorting keeps exactly the elements it was given. */
  lemma SortByMembers<T>(s: seq<T>, key: T -> int)
    ensures forall x :: x in SortBy(s, key) <==> x in s
  {
    var r := SortBy(s, key);
    forall x
      ensures x in r <==> x in s
    {
      assert x in r <==> x in multiset(r);
      assert x in s <==> x in multiset(s);
    }
  }

  /** A non-empty sequence is its front followed by its last element. */
  lemma InitLast<T>(s: seq<T>)
    requires s != []
    ensures s[..|s| - 1] + [s[|s| - 1]] == s
  {
  }

  /** No two elements share an `id`. */
  predicate DistinctBy<T, U(==)>(s: seq<T>, id: T -> U) {
    forall i, j :: 0 <= i < j < |s| ==> id(s[i]) != id(s[j])
  }

  lemma {:induction false} InsertDistinctBy<T, U>(x: T, s: seq<T>, key: T -> int, id: T -> U)
    requires DistinctBy(s, id)
    requires forall i :: 0 <= i < |s| ==> id(s[i]) != id(x)
    ensures DistinctBy(Insert(x, s, key), id)
  {
    if s != [] && key(x) > key(s[0]) {
      InsertDistinctBy(x, s[1..], key, id);
      var r := Insert(x, s[1..], key);
      forall k | 0 <= k < |r|
        ensures id(r[k]) != id(s[0])
      {
        assert r[k] in multiset(r);
        if r[k] != x {
          assert r[k] in multiset(s[1..]);
          assert r[k] in s[1..];
        }
      }
    }
  }

  /** Sorting keeps the elements' ids distinct. */
  lemma {:induction false} SortByDistinctBy<T, U>(s: seq<T>, key: T -> int, id: T -> U)
    requires DistinctBy(s, id)
    ensures DistinctBy(SortBy(s, key), id)
  {
    if s != [] {
      SortByDistinctBy(s[1..], key, id);
      var r := SortBy(s[1..], key);
      forall k | 0 <= k < |r|
        ensures id(r[k]) != id(s[0])
      {
        assert r[k] in multiset(r);
        assert r[k] in s[1..];
      }
      InsertDistinctBy(s[0], r, key, id);
    }
  }

  /** The elements that satisfy `p`, in their original order (`Array.prototype.filter`). */
  function Filter<T>(s: seq<T>, p: T -> bool): (r: seq<T>)
    ensures |r| <= |s|
  {
    if s == [] then []
    else if p(s[0]) then [s[0]] + Filter(s[1..], p)
    else Filter(s[1..], p)
  }

  /** The elements whose key is `k`. */
  function KeyIs<T>(key: T -> int, k: int): T -> bool {
    y => key(y) == k
  }

  /** Inserting `x` puts it in front of every element with the same key. */
  lemma {:induction false} InsertKeepsTies<T>(x: T, s: seq<T>, key: T -> int, k: int)
    ensures Filter(Insert(x, s, key), KeyIs(key, k)) ==
            (if key(x) == k then [x] else []) + Filter(s, KeyIs(key, k))
  {
    var r := Insert(x, s, key);
    if s == [] || key(x) <= key(s[0]) {
      assert r == [x] + s;
      assert r[1..] == s;
    } else {
      InsertKeepsTies(x, s[1..], key, k);
      assert r == [s[0]] + Insert(x, s[1..], key);
      assert r[1..] == Insert(x, s[1..], key);
    }
  }

  /**
   * The sort is stable: the elements with any one key come out in the order
   * they went in.
   */
  lemma {:induction false} SortByStable<T>(s: seq<T>, key: T -> int, k: int)
    ensures Filter(SortBy(s, key), KeyIs(key, k)) == Filter(s, KeyIs(key, k))
  {
    if s != [] {
      SortByStable(s[1..], key, k);
      InsertKeepsTies(s[0], SortBy(s[1..], key), key, k);
    }
  }

  /** The filtered elements are the elements of `s` that satisfy `p`. */
  lemma {:induction false} FilterSpec<T>(s: seq<T>, p: T -> bool)
    ensures forall i :: 0 <= i < |Filter(s, p)| ==> p(Filter(s, p)[i]) && Filter(s, p)[i] in s
    ensures forall i :: 0 <= i < |s| && p(s[i]) ==> s[i] in Filter(s, p)
  {
    if s != [] {
      FilterSpec(s[1..], p);
      var r := Filter(s, p);
      var t := Filter(s[1..], p);
      assert forall x :: x in s[1..] ==> x in s;
      if p(s[0]) {
        assert r == [s[0]] + t;
        assert forall i :: 1 <= i < |s| ==> s[i] == s[1..][i - 1];
      } else {
        assert forall i :: 1 <= i < |s| ==> s[i] == s[1..][i - 1];
      }
    }
  }

  lemma {:induction false} FilterAppend<T>(a: seq<T>, b: seq<T>, p: T -> bool)
    ensures Filter(a + b, p) == Filter(a, p) + Filter(b, p)
  {
    if a != [] {
      assert (a + b)[1..] == a[1..] + b;
      FilterAppend(a[1..], b, p);
    } else {
      assert a + b == b;
    }
  }

  lemma FilterSingleton<T>(x: T, p: T -> bool)
    ensures Filter([x], p) == if p(x) then [x] else []
  {
    assert [x][1..] == [];
  }

  /** Filtering keeps everything when every element qualifies. */
  lemma {:induction false} FilterAll<T>(s: seq<T>, p: T -> bool)
    requires forall k :: 0 <= k < |s| ==> p(s[k])
    ensures Filter(s, p) == s
  {
    if s != [] {
      FilterAll(s[1..], p);
    }
  }

  /** The number of elements satisfying `p` (a `countDocuments` with a filter). */
  function Count<T>(s: seq<T>, p: T -> bool): nat {
    |Filter(s, p)|
  }

  lemma CountAppend<T>(a: seq<T>, b: seq<T>, p: T -> bool)
    ensures Count(a + b, p) == Count(a, p) + Count(b, p)
  {
    FilterAppend(a, b, p);
  }

  /** `s.reduce((sum, x) => sum + f(x), 0)`. */
  function Sum<T>(s: seq<T>, f: T -> int): int {
    if s == [] then 0 else f(s[0]) + Sum(s[1..], f)
  }

  lemma {:induction false} SumAppend<T>(a: seq<T>, b: seq<T>, f: T -> int)
    ensures Sum(a + b, f) == Sum(a, f) + Sum(b, f)
  {
    if a == [] {
      assert a + b == b;
    } else {
      assert (a + b)[1..] == a[1..] + b;
      SumAppend(a[1..], b, f);
    }
  }

  /** A sum of non-negative terms over a filtered sequence is at most the sum over all of it. */
  lemma {:induction false} SumFilterLe<T>(s: seq<T>, p: T -> bool, f: T -> int)
    requires forall x :: x in s ==> f(x) >= 0
    ensures Sum(Filter(s, p), f) <= Sum(s, f)
  {
    if s != [] {
      SumFilterLe(s[1..], p, f);
    }
  }

  /** Sorting does not change a sum. */
  lemma {:induction false} SumInsert<T>(x: T, s: seq<T>, key: T -> int, f: T -> int)
    ensures Sum(Insert(x, s, key), f) == f(x) + Sum(s, f)
  {
    if s != [] && key(x) > key(s[0]) {
      SumInsert(x, s[1..], key, f);
    }
  }

  lemma {:induction false} SumSortBy<T>(s: seq<T>, key: T -> int, f: T -> int)
    ensures Sum(SortBy(s, key), f) == Sum(s, f)
  {
    if s != [] {
      SumSortBy(s[1..], key, f);
      SumInsert(s[0], SortBy(s[1..], key), key, f);
    }
  }

  /** Replacing one element changes a sum by the difference of the two terms. */
  lemma SumUpdate<T>(s: seq<T>, j: nat, y: T, f: T -> int)
    requires j < |s|
    ensures Sum(s[j := y], f) == Sum(s, f) - f(s[j]) + f(y)
  {
    assert s == s[..j] + [s[j]] + s[j + 1..];
    assert s[j := y] == s[..j] + [y] + s[j + 1..];
    SumAppend(s[..j] + [s[j]], s[j + 1..], f);
    SumAppend(s[..j], [s[j]], f);
    SumAppend(s[..j] + [y], s[j + 1..], f);
    SumAppend(s[..j], [y], f);
  }

  lemma CountSingleton<T>(x: T, p: T -> bool)
    ensures Count([x], p) == if p(x) then 1 else 0
  {
    assert [x][1..] == [];
  }

  /** Counting over one more element of a prefix. */
  lemma CountPrefixStep<T>(s: seq<T>, i: nat, p: T -> bool)
    requires i < |s|
    ensures Count(s[..i + 1], p) == Count(s[..i], p) + (if p(s[i]) then 1 else 0)
  {
    assert s[..i + 1] == s[..i] + [s[i]];
    CountAppend(s[..i], [s[i]], p);
    CountSingleton(s[i], p);
  }

  /** The count over the first `i` elements, one element at a time, as a loop accumulates it. */
  function CountTo<T>(s: seq<T>, i: nat, p: T -> bool): nat
    requires i <= |s|
  {
    if i == 0 then 0 else CountTo(s, i - 1, p) + (if p(s[i - 1]) then 1 else 0)
  }

  lemma {:induction false} CountToPrefix<T>(s: seq<T>, i: nat, p: T -> bool)
    requires i <= |s|
    ensures CountTo(s, i, p) == Count(s[..i], p)
  {
    if i == 0 {
      assert s[..0] == [];
    } else {
      CountToPrefix(s, i - 1, p);
      CountPrefixStep(s, i - 1, p);
    }
  }

  /** Two sequences that hold `c` at the same positions hold it equally often. */
  lemma {:induction false} SamePositionsCount<T>(a: seq<T>, b: seq<T>, c: T)
    requires |a| == |b| && forall i :: 0 <= i < |a| ==> (a[i] == c <==> b[i] == c)
    ensures multiset(a)[c] == multiset(b)[c]
  {
    if a != [] {
      SamePositionsCount(a[1..], b[1..], c);
      assert a == [a[0]] + a[1..] && b == [b[0]] + b[1..];
      assert multiset(a)[c] == multiset([a[0]])[c] + multiset(a[1..])[c];
      assert multiset(b)[c] == multiset([b[0]])[c] + multiset(b[1..])[c];
    }
  }

  /** Filtering keeps every copy of an element that qualifies and none of one that does not. */
  lemma {:induction false} FilterMultiplicity<T>(s: seq<T>, p: T -> bool, x: T)
    ensures multiset(Filter(s, p))[x] == if p(x) then multiset(s)[x] else 0
  {
    if s != [] {
      FilterMultiplicity(s[1..], p, x);
      assert s == [s[0]] + s[1..];
      assert multiset(s)[x] == multiset([s[0]])[x] + multiset(s[1..])[x];
      if p(s[0]) {
        assert multiset(Filter(s, p))[x] == multiset([s[0]])[x] + multiset(Filter(s[1..], p))[x];
      }
    }
  }

  /** Membership in a filtered sequence. */
  lemma FilterMembers<T>(s: seq<T>, p: T -> bool)
    ensures forall x :: x in Filter(s, p) <==> x in s && p(x)
  {
    FilterSpec(s, p);
    forall x | x in Filter(s, p) ensures x in s && p(x) {
      var i :| 0 <= i < |Filter(s, p)| && Filter(s, p)[i] == x;
    }
    forall x | x in s && p(x) ensures x in Filter(s, p) {
      var i :| 0 <= i < |s| && s[i] == x;
    }
  }

  /** Nothing satisfies `p`, so nothing is counted. */
  lemma {:induction false} CountNone<T>(s: seq<T>, p: T -> bool)
    requires forall k :: 0 <= k < |s| ==> !p(s[k])
    ensures Count(s, p) == 0
  {
    if s != [] {
      assert forall k :: 0 <= k < |s| - 1 ==> s[1..][k] == s[k + 1];
      CountNone(s[1..], p);
    }
  }

  /** Filtering by a weaker condition first does not change the result. */
  lemma {:induction false} FilterFilter<T>(s: seq<T>, q: T -> bool, p: T -> bool)
    requires forall k :: 0 <= k < |s| && p(s[k]) ==> q(s[k])
    ensures Filter(Filter(s, q), p) == Filter(s, p)
  {
    if s != [] {
      FilterFilter(s[1..], q, p);
    }
  }

  /** Mapping a function over a sequence (`Array.prototype.map`). */
  function Map<T, U>(s: seq<T>, f: T -> U): (r: seq<U>)
    ensures |r| == |s| && forall i :: 0 <= i < |s| ==> r[i] == f(s[i])
  {
    if s == [] then [] else [f(s[0])] + Map(s[1..], f)
  }

  /** All elements distinct. */
  predicate Distinct<T(==)>(s: seq<T>) {
    forall i, j :: 0 <= i < j < |s| ==> s[i] != s[j]
  }

  /** The index of the first occurrence of `x` in `s`. */
  function IndexOf<T(==)>(s: seq<T>, x: T): (k: nat)
    requires x in s
    ensures k < |s| && s[k] == x && x !in s[..k]
  {
    if s[0] == x then 0 else assert s == [s[0]] + s[1..]; 1 + IndexOf(s[1..], x)
  }

  /** A position holding `x` with no `x` before it is the first occurrence. */
  lemma {:induction false} IndexOfUnique<T>(s: seq<T>, x: T, k: nat)
    requires k < |s| && s[k] == x && x !in s[..k]
    ensures IndexOf(s, x) == k
  {
    if k > 0 {
      assert s[..k][0] == s[0];
      assert s[1..][..k - 1] == s[..k][1..];
      assert forall y :: y in s[..k][1..] ==> y in s[..k];
      IndexOfUnique(s[1..], x, k - 1);
    }
  }

  lemma IndexOfPrefix<T>(s: seq<T>, n: nat, x: T)
    requires n <= |s| && x in s[..n]
    ensures IndexOf(s, x) == IndexOf(s[..n], x)
  {
    var k := IndexOf(s[..n], x);
    assert s[..n][..k] == s[..k];
    assert s[k] == s[..n][k];
    IndexOfUnique(s, x, k);
  }

  /** Keeps the first occurrence of every element, in order (`Array.from(new Set(s))`). */
  function Dedupe<T(==)>(s: seq<T>): (r: seq<T>)
    ensures forall i :: 0 <= i < |s| ==> s[i] in r
    ensures forall i :: 0 <= i < |r| ==> r[i] in s
    ensures Distinct(r)
  {
    if s == [] then []
    else
      var r := Dedupe(s[..|s| - 1]);
      var x := s[|s| - 1];
      assert s == s[..|s| - 1] + [x];
      if x in r then r else r + [x]
  }

  /** The elements of `Dedupe(s)` come in the order of their first occurrences in `s`. */
  lemma {:induction false} DedupeFirstOccurrenceOrder<T>(s: seq<T>)
    ensures forall i, j :: 0 <= i < j < |Dedupe(s)| ==>
              IndexOf(s, Dedupe(s)[i]) < IndexOf(s, Dedupe(s)[j])
  {
    if s != [] {
      var init := s[..|s| - 1];
      var r := Dedupe(init);
      var x := s[|s| - 1];
      DedupeFirstOccurrenceOrder(init);
      forall y | y in r ensures IndexOf(s, y) == IndexOf(init, y) {
        IndexOfPrefix(s, |s| - 1, y);
        assert s[..|s| - 1] == init;
      }
      if x !in r {
        assert x !in init;
        assert IndexOf(s, x) == |s| - 1;
        var d := Dedupe(s);
        assert d == r + [x];
        forall i, j | 0 <= i < j < |d|
          ensures IndexOf(s, d[i]) < IndexOf(s, d[j])
        {
          assert d[i] == r[i] && d[i] in r;
          if j < |r| {
            assert d[j] == r[j] && d[j] in r;
          }
        }
      }
    }
  }
}
