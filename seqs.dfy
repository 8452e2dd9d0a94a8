/**
 * The list idioms of the Python sources: comprehensions with a condition,
 * the first or last element that satisfies a test (a `for` loop with an
 * early `return`, or one that keeps overwriting), counting and summing.
 */
module Seqs {
  import opened Wrappers

  /** `[x for x in s if p(x)]`. */
  function Filter<T(!new)>(s: seq<T>, p: T -> bool): (r: seq<T>)
    ensures |r| <= |s|
    ensures forall x :: x in r <==> x in s && p(x)
    ensures forall i :: 0 <= i < |r| ==> p(r[i])
  {
    if s == [] then []
    else
      assert s == [s[0]] + s[1..];
      (if p(s[0]) then [s[0]] else []) + Filter(s[1..], p)
  }

  /** A comprehension whose test every element passes keeps the whole list. */
  lemma {:induction false} FilterAll<T(!new)>(s: seq<T>, p: T -> bool)
    requires forall i :: 0 <= i < |s| ==> p(s[i])
    ensures Filter(s, p) == s
  {
    if s != [] {
      FilterAll(s[1..], p);
    }
  }

  /** Filtering twice, with a test and its negation, splits the elements between the two results. */
  lemma {:induction false} FilterPartition<T(!new)>(s: seq<T>, p: T -> bool, q: T -> bool)
    requires forall x :: q(x) == !p(x)
    ensures multiset(Filter(s, p)) + multiset(Filter(s, q)) == multiset(s)
    ensures |Filter(s, p)| + |Filter(s, q)| == |s|
  {
    if s != [] {
      FilterPartition(s[1..], p, q);
      assert s == [s[0]] + s[1..];
    }
  }

  lemma {:induction false} FilterAppend<T(!new)>(a: seq<T>, b: seq<T>, p: T -> bool)
    ensures Filter(a + b, p) == Filter(a, p) + Filter(b, p)
  {
    if a == [] {
      assert a + b == b;
    } else {
      assert (a + b)[0] == a[0];
      assert (a + b)[1..] == a[1..] + b;
      FilterAppend(a[1..], b, p);
    }
  }

  /** A comprehension whose test no element passes is empty. */
  lemma {:induction false} FilterNone<T(!new)>(s: seq<T>, p: T -> bool)
    requires forall i :: 0 <= i < |s| ==> !p(s[i])
    ensures Filter(s, p) == []
  {
    if s != [] {
      FilterNone(s[1..], p);
    }
  }

  /** Index of the first element that passes the test: the element a `for` loop with an early `return` stops at. */
  function FirstIndex<T>(s: seq<T>, p: T -> bool): (r: Option<nat>)
    ensures r.Some? ==> r.value < |s| && p(s[r.value])
    ensures r.Some? ==> forall j :: 0 <= j < r.value ==> !p(s[j])
    ensures r.None? <==> forall j :: 0 <= j < |s| ==> !p(s[j])
  {
    if s == [] then None
    else if p(s[0]) then Some(0)
    else
      match FirstIndex(s[1..], p)
      case None =>
        assert forall j :: 1 <= j < |s| ==> s[j] == s[1..][j - 1];
        None
      case Some(k) =>
        assert forall j :: 1 <= j <= k ==> s[j] == s[1..][j - 1];
        Some(k + 1)
  }

  /** Index of the last element that passes the test: the one a loop that keeps overwriting ends on. */
  function LastIndex<T>(s: seq<T>, p: T -> bool): (r: Option<nat>)
    ensures r.Some? ==> r.value < |s| && p(s[r.value])
    ensures r.Some? ==> forall j :: r.value < j < |s| ==> !p(s[j])
    ensures r.None? <==> forall j :: 0 <= j < |s| ==> !p(s[j])
  {
    if s == [] then None
    else if p(s[|s| - 1]) then Some(|s| - 1)
    else
      match LastIndex(s[..|s| - 1], p)
      case None => None
      case Some(k) => Some(k)
  }

  /** `sum([1 for x in s if p(x)])`. */
  function Count<T>(s: seq<T>, p: T -> bool): (n: nat)
    ensures n <= |s|
  {
    if s == [] then 0 else (if p(s[0]) then 1 else 0) + Count(s[1..], p)
  }

  lemma {:induction false} CountFilter<T(!new)>(s: seq<T>, p: T -> bool)
    ensures Count(s, p) == |Filter(s, p)|
  {
    if s != [] {
      CountFilter(s[1..], p);
    }
  }

  /** `sum(f(x) for x in s)`. */
  function Sum<T>(s: seq<T>, f: T -> int): int
  {
    if s == [] then 0 else f(s[0]) + Sum(s[1..], f)
  }

  lemma {:induction false} SumAppend<T>(a: seq<T>, b: seq<T>, f: T -> int)
    ensures Sum(a + b, f) == Sum(a, f) + Sum(b, f)
  {
    if a == [] {
      assert a + b == b;
    } else {
      assert (a + b)[0] == a[0];
      assert (a + b)[1..] == a[1..] + b;
      SumAppend(a[1..], b, f);
    }
  }

  lemma {:induction false} CountAppend<T>(a: seq<T>, b: seq<T>, p: T -> bool)
    ensures Count(a + b, p) == Count(a, p) + Count(b, p)
  {
    if a == [] {
      assert a + b == b;
    } else {
      assert (a + b)[0] == a[0];
      assert (a + b)[1..] == a[1..] + b;
      CountAppend(a[1..], b, p);
    }
  }

  /** A sum of non-negative terms is non-negative. */
  lemma {:induction false} SumNonNegative<T>(s: seq<T>, f: T -> int)
    requires forall x :: x in s ==> f(x) >= 0
    ensures Sum(s, f) >= 0
  {
    if s != [] {
      assert forall x :: x in s[1..] ==> x in s;
      SumNonNegative(s[1..], f);
    }
  }

  /** Some element of `s` has key `k`. */
  predicate HasKey<T, K(==)>(s: seq<T>, key: T -> K, k: K)
  {
    exists i :: 0 <= i < |s| && key(s[i]) == k
  }

  /**
   * The first element of `s` for each key, in order: a loop that skips
   * what it has already seen, or a dict filled with "if key not in d".
   */
  function Distinct<T, K(==)>(s: seq<T>, key: T -> K): (r: seq<T>)
    ensures |r| <= |s|
    ensures forall i, j :: 0 <= i < j < |r| ==> key(r[i]) != key(r[j])
    ensures forall i :: 0 <= i < |r| ==> r[i] in s
  {
    if s == [] then []
    else
      var n := |s| - 1;
      var prev := Distinct(s[..n], key);
      assert forall i :: 0 <= i < |prev| ==> prev[i] in s;
      if HasKey(prev, key, key(s[n])) then prev else prev + [s[n]]
  }

  /** Every key of `s` is the key of one element of the result. */
  lemma {:induction false} DistinctCovers<T, K>(s: seq<T>, key: T -> K, k: K)
    ensures HasKey(Distinct(s, key), key, k) <==> HasKey(s, key, k)
  {
    if s != [] {
      var n := |s| - 1;
      var prev := Distinct(s[..n], key);
      DistinctCovers(s[..n], key, k);
      if HasKey(s, key, k) && !HasKey(s[..n], key, k) {
        forall i | 0 <= i < n
          ensures key(s[i]) != k
        {
          assert s[i] == s[..n][i];
        }
      }
      if HasKey(s[..n], key, k) {
        var i :| 0 <= i < n && key(s[..n][i]) == k;
        assert key(s[i]) == k;
      }
      if !HasKey(prev, key, key(s[n])) {
        var r := prev + [s[n]];
        if HasKey(prev, key, k) {
          var i :| 0 <= i < |prev| && key(prev[i]) == k;
          assert r[i] == prev[i];
        }
        assert key(r[|prev|]) == key(s[n]);
        if HasKey(r, key, k) && !HasKey(prev, key, k) {
          var i :| 0 <= i < |r| && key(r[i]) == k;
          assert i == |prev|;
        }
      }
    }
  }

  /** Each element of the result is the first element of `s` with its key. */
  lemma {:induction false} DistinctFirst<T, K>(s: seq<T>, key: T -> K, i: nat)
    requires i < |Distinct(s, key)|
    ensures exists j :: 0 <= j < |s| && s[j] == Distinct(s, key)[i] && !HasKey(s[..j], key, key(s[j]))
  {
    var n := |s| - 1;
    var prev := Distinct(s[..n], key);
    var r := Distinct(s, key);
    if i < |prev| {
      DistinctFirst(s[..n], key, i);
      var j :| 0 <= j < n && s[..n][j] == prev[i] && !HasKey(s[..n][..j], key, key(s[..n][j]));
      assert s[..n][..j] == s[..j];
      assert r[i] == prev[i];
    } else {
      assert r == prev + [s[n]] && r[i] == s[n];
      DistinctCovers(s[..n], key, key(s[n]));
      assert s[..n] == s[..n];
    }
  }
}
