/**
 * Sequence operations the source gets from its languages' libraries: slicing a prefix,
 * filtering, turning a list into a set and back (list(set(...))), and Python's list.sort with
 * reverse=True, which is stable: elements with equal keys keep their relative order.
 */
module Sequences {

  /** s[:n] */
  function Take<T>(s: seq<T>, n: nat): (r: seq<T>)
    ensures |r| <= n && |r| <= |s|
    ensures |s| <= n ==> r == s
    ensures |r| == n || r == s
    ensures forall i :: 0 <= i < |r| ==> r[i] == s[i]
    ensures forall x :: x in r ==> x in s
  {
    if |s| <= n then s else s[..n]
  }

  /** The elements satisfying p, in their original order. */
  function Filter<T(!new)>(s: seq<T>, p: T -> bool): (r: seq<T>)
    ensures |r| <= |s|
    ensures forall x :: x in r <==> x in s && p(x)
    decreases |s|
  {
    if |s| == 0 then [] else (if p(s[0]) then [s[0]] else []) + Filter(s[1..], p)
  }

  lemma {:induction false} FilterAll<T(!new)>(s: seq<T>, p: T -> bool)
    requires forall x :: x in s ==> p(x)
    ensures Filter(s, p) == s
    decreases |s|
  {
    if |s| > 0 {
      FilterAll(s[1..], p);
      assert [s[0]] + s[1..] == s;
    }
  }

  /** Filtering by two predicates that agree on every element gives the same result. */
  lemma {:induction false} FilterSame<T(!new)>(s: seq<T>, p: T -> bool, q: T -> bool)
    requires forall x :: x in s ==> p(x) == q(x)
    ensures Filter(s, p) == Filter(s, q)
    decreases |s|
  {
    if |s| > 0 {
      FilterSame(s[1..], p, q);
    }
  }

  predicate NoDuplicates<T(==)>(s: seq<T>) {
    forall i, j :: 0 <= i < j < |s| ==> s[i] != s[j]
  }

  /** list(set(s)) up to order: each distinct element once, in order of first occurrence. */
  function Dedup<T(==,!new)>(s: seq<T>): (r: seq<T>)
    ensures NoDuplicates(r)
    ensures forall x :: x in r <==> x in s
    ensures |r| <= |s|
    decreases |s|
  {
    if |s| == 0 then []
    else
      var d := Dedup(s[..|s| - 1]);
      assert forall x :: x in s <==> x in s[..|s| - 1] || x == s[|s| - 1];
      if s[|s| - 1] in d then d else d + [s[|s| - 1]]
  }

  /** A set whose every element is the image of an element of s has at most |s| elements. */
  lemma {:induction false} ImageCard<T, U>(s: seq<T>, f: T -> U, img: set<U>)
    requires forall y :: y in img ==> exists x :: x in s && f(x) == y
    ensures |img| <= |s|
    decreases |s|
  {
    if |s| == 0 {
      assert img == {};
    } else {
      var rest := img - {f(s[0])};
      forall y | y in rest ensures exists x :: x in s[1..] && f(x) == y {
        var x :| x in s && f(x) == y;
        assert x != s[0];
        var k :| 0 <= k < |s| && s[k] == x;
        assert s[1..][k - 1] == x;
      }
      ImageCard(s[1..], f, rest);
    }
  }

  /** Every key is at least the next one's. */
  predicate NonIncreasing<T>(s: seq<T>, key: T -> real) {
    forall i, j :: 0 <= i < j < |s| ==> key(s[i]) >= key(s[j])
  }

  /** Ordered by k1 descending and, among equal k1, by k2 descending (SQL ORDER BY k1 DESC, k2 DESC). */
  predicate LexNonIncreasing<T>(s: seq<T>, k1: T -> real, k2: T -> real) {
    forall i, j :: 0 <= i < j < |s| ==>
      k1(s[i]) > k1(s[j]) || (k1(s[i]) == k1(s[j]) && k2(s[i]) >= k2(s[j]))
  }

  /** Places x before the first element whose key is not larger than x's. */
  function Insert<T>(x: T, s: seq<T>, key: T -> real): (r: seq<T>)
    ensures multiset(r) == multiset(s) + multiset{x}
    decreases |s|
  {
    if |s| == 0 || key(s[0]) <= key(x) then [x] + s
    else
      assert [s[0]] + s[1..] == s;
      [s[0]] + Insert(x, s[1..], key)
  }

  /** sorted(s, key=key, reverse=True): a stable sort by descending key. */
  function SortDesc<T>(s: seq<T>, key: T -> real): (r: seq<T>)
    ensures multiset(r) == multiset(s)
    ensures |r| == |s|
    decreases |s|
  {
    if |s| == 0 then []
    else
      assert [s[0]] + s[1..] == s;
      Insert(s[0], SortDesc(s[1..], key), key)
  }

  /** The elements whose key is exactly v, in order. */
  function WithKey<T>(s: seq<T>, key: T -> real, v: real): seq<T>
    decreases |s|
  {
    if |s| == 0 then [] else (if key(s[0]) == v then [s[0]] else []) + WithKey(s[1..], key, v)
  }

  lemma {:induction false} InsertNonIncreasing<T>(x: T, s: seq<T>, key: T -> real)
    requires NonIncreasing(s, key)
    ensures NonIncreasing(Insert(x, s, key), key)
    decreases |s|
  {
    if |s| == 0 || key(s[0]) <= key(x) {
    } else {
      InsertNonIncreasing(x, s[1..], key);
      var t := Insert(x, s[1..], key);
      forall e | e in t ensures key(s[0]) >= key(e) {
        assert e in multiset(t);
        if e != x {
          assert e in s[1..];
        }
      }
    }
  }

  /** The result of SortDesc is ordered by descending key. */
  lemma {:induction false} SortDescNonIncreasing<T>(s: seq<T>, key: T -> real)
    ensures NonIncreasing(SortDesc(s, key), key)
    decreases |s|
  {
    if |s| > 0 {
      SortDescNonIncreasing(s[1..], key);
      InsertNonIncreasing(s[0], SortDesc(s[1..], key), key);
    }
  }

  /** sorted(s, key=key, reverse=True)[:n] keeps elements of s only, and all of s when s has at most n. */
  lemma TopOfSorted<T>(s: seq<T>, key: T -> real, n: nat)
    ensures forall x :: x in Take(SortDesc(s, key), n) ==> x in s
    ensures |s| <= n ==> multiset(Take(SortDesc(s, key), n)) == multiset(s)
  {
    var sorted := SortDesc(s, key);
    forall x | x in Take(sorted, n) ensures x in s {
      assert x in multiset(sorted);
    }
  }

  /** An element that sorted(s, key=key, reverse=True)[:n] leaves out ranks no higher than any it keeps. */
  lemma LeftOutOfSorted<T>(s: seq<T>, key: T -> real, n: nat, e: T, f: T)
    requires e in s && e !in Take(SortDesc(s, key), n) && f in Take(SortDesc(s, key), n)
    ensures |Take(SortDesc(s, key), n)| == n && key(e) <= key(f)
  {
    var sorted := SortDesc(s, key);
    var top := Take(sorted, n);
    SortDescNonIncreasing(s, key);
    assert e in multiset(sorted);
    var j :| 0 <= j < |sorted| && sorted[j] == e;
    var i :| 0 <= i < |top| && top[i] == f;
    assert forall m :: 0 <= m < |top| ==> top[m] == sorted[m] && top[m] != e;
    assert j >= |top|;
    assert key(sorted[i]) >= key(sorted[j]);
  }

  lemma WithKeyCons<T>(x: T, t: seq<T>, key: T -> real, v: real)
    ensures WithKey([x] + t, key, v) == (if key(x) == v then [x] else []) + WithKey(t, key, v)
  {
    assert ([x] + t)[1..] == t;
  }

  lemma {:induction false} InsertStable<T>(x: T, s: seq<T>, key: T -> real, v: real)
    ensures WithKey(Insert(x, s, key), key, v) == (if key(x) == v then [x] else []) + WithKey(s, key, v)
    decreases |s|
  {
    if |s| == 0 || key(s[0]) <= key(x) {
      assert Insert(x, s, key) == [x] + s;
      WithKeyCons(x, s, key, v);
    } else {
      var t := Insert(x, s[1..], key);
      var kept0 := if key(s[0]) == v then [s[0]] else [];
      var keptX := if key(x) == v then [x] else [];
      // The larger key of s[0] cannot equal key(x), so at most one of the two is kept.
      assert kept0 == [] || keptX == [];
      calc {
        WithKey(Insert(x, s, key), key, v);
        { assert Insert(x, s, key) == [s[0]] + t; }
        WithKey([s[0]] + t, key, v);
        { WithKeyCons(s[0], t, key, v); }
        kept0 + WithKey(t, key, v);
        { InsertStable(x, s[1..], key, v); }
        kept0 + (keptX + WithKey(s[1..], key, v));
        keptX + (kept0 + WithKey(s[1..], key, v));
        { WithKeyCons(s[0], s[1..], key, v); assert [s[0]] + s[1..] == s; }
        keptX + WithKey(s, key, v);
      }
    }
  }

  /** Stability: among the elements of any one key, SortDesc keeps the input order. */
  lemma {:induction false} SortDescStable<T>(s: seq<T>, key: T -> real, v: real)
    ensures WithKey(SortDesc(s, key), key, v) == WithKey(s, key, v)
    decreases |s|
  {
    if |s| > 0 {
      SortDescStable(s[1..], key, v);
      InsertStable(s[0], SortDesc(s[1..], key), key, v);
    }
  }

  lemma {:induction false} InsertLex<T>(x: T, s: seq<T>, k1: T -> real, k2: T -> real)
    requires LexNonIncreasing(s, k1, k2)
    requires forall e :: e in s ==> k2(x) >= k2(e)
    ensures LexNonIncreasing(Insert(x, s, k1), k1, k2)
    decreases |s|
  {
    if |s| == 0 || k1(s[0]) <= k1(x) {
    } else {
      InsertLex(x, s[1..], k1, k2);
      var t := Insert(x, s[1..], k1);
      forall j | 0 <= j < |t|
        ensures k1(s[0]) > k1(t[j]) || (k1(s[0]) == k1(t[j]) && k2(s[0]) >= k2(t[j]))
      {
        assert t[j] in multiset(t);
        if t[j] != x {
          assert t[j] in s[1..];
          var m :| 0 <= m < |s[1..]| && s[1..][m] == t[j];
          assert s[1 + m] == t[j];
        }
      }
    }
  }

  /**
   * Sorting by k1 a sequence already ordered by k2 yields the order "k1 descending, then k2
   * descending": the second key survives because the sort is stable.
   */
  lemma {:induction false} SortDescLex<T>(s: seq<T>, k1: T -> real, k2: T -> real)
    requires NonIncreasing(s, k2)
    ensures LexNonIncreasing(SortDesc(s, k1), k1, k2)
    decreases |s|
  {
    if |s| > 0 {
      SortDescLex(s[1..], k1, k2);
      var t := SortDesc(s[1..], k1);
      forall e | e in t ensures k2(s[0]) >= k2(e) {
        assert e in multiset(t);
        assert e in s[1..];
        var m :| 0 <= m < |s[1..]| && s[1..][m] == e;
        assert s[1 + m] == e;
      }
      InsertLex(s[0], t, k1, k2);
    }
  }

  /** No two elements share a key: the ids of a result list are unique. */
  predicate DistinctKeys<T, K(==)>(s: seq<T>, f: T -> K) {
    forall i, j :: 0 <= i < j < |s| ==> f(s[i]) != f(s[j])
  }

  lemma {:induction false} InsertDistinct<T, K>(x: T, s: seq<T>, key: T -> real, f: T -> K)
    requires DistinctKeys(s, f)
    requires forall e :: e in s ==> f(e) != f(x)
    ensures DistinctKeys(Insert(x, s, key), f)
    decreases |s|
  {
    if |s| == 0 || key(s[0]) <= key(x) {
      assert forall j :: 1 <= j < |s| + 1 ==> ([x] + s)[j] == s[j - 1];
    } else {
      InsertDistinct(x, s[1..], key, f);
      var t := Insert(x, s[1..], key);
      forall e | e in t ensures f(s[0]) != f(e) {
        assert e in multiset(t);
        if e != x {
          assert e in s[1..];
          var m :| 0 <= m < |s[1..]| && s[1..][m] == e;
          assert s[1 + m] == e;
        }
      }
    }
  }

  /** Sorting keeps ids unique. */
  lemma {:induction false} SortDescDistinct<T, K>(s: seq<T>, key: T -> real, f: T -> K)
    requires DistinctKeys(s, f)
    ensures DistinctKeys(SortDesc(s, key), f)
    decreases |s|
  {
    if |s| > 0 {
      SortDescDistinct(s[1..], key, f);
      var t := SortDesc(s[1..], key);
      forall e | e in t ensures f(e) != f(s[0]) {
        assert e in multiset(t);
        assert e in s[1..];
        var m :| 0 <= m < |s[1..]| && s[1..][m] == e;
        assert s[1 + m] == e;
      }
      InsertDistinct(s[0], t, key, f);
    }
  }

  lemma ConsDistinct<T, K>(x: T, s: seq<T>, f: T -> K)
    requires DistinctKeys(s, f)
    requires forall e :: e in s ==> f(e) != f(x)
    ensures DistinctKeys([x] + s, f)
  {
    forall i, j | 0 <= i < j < |[x] + s| ensures f(([x] + s)[i]) != f(([x] + s)[j]) {
      assert ([x] + s)[j] == s[j - 1];
      if i == 0 {
        assert s[j - 1] in s;
      } else {
        assert ([x] + s)[i] == s[i - 1];
      }
    }
  }
}
