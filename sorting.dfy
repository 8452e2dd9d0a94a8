/**
 * Ascending sort of values by a string key, as `list.sort()` / `sorted(..., key=...)`
 * in Python and the default `Array.prototype.sort()` in JavaScript: code-point order,
 * elements with equal keys keep their relative order (`SortByStable`).
 */
module Sorting {
  /** `a <= b` on strings. */
  predicate LexLe(a: string, b: string)
    decreases |a|
  {
    a == [] || (b != [] && (a[0] < b[0] || (a[0] == b[0] && LexLe(a[1..], b[1..]))))
  }

  lemma {:induction false} LexLeRefl(a: string)
    ensures LexLe(a, a)
    decreases |a|
  {
    if a != [] { LexLeRefl(a[1..]); }
  }

  lemma {:induction false} LexLeTotal(a: string, b: string)
    ensures LexLe(a, b) || LexLe(b, a)
    decreases |a|
  {
    if a != [] && b != [] && a[0] == b[0] { LexLeTotal(a[1..], b[1..]); }
  }

  lemma {:induction false} LexLeTrans(a: string, b: string, c: string)
    requires LexLe(a, b) && LexLe(b, c)
    ensures LexLe(a, c)
    decreases |a|
  {
    if a != [] && b != [] && c != [] && a[0] == b[0] && b[0] == c[0] {
      LexLeTrans(a[1..], b[1..], c[1..]);
    }
  }

  lemma {:induction false} LexLeAntisym(a: string, b: string)
    requires LexLe(a, b) && LexLe(b, a)
    ensures a == b
    decreases |a|
  {
    if a != [] && b != [] {
      LexLeAntisym(a[1..], b[1..]);
      assert a == [a[0]] + a[1..] && b == [b[0]] + b[1..];
    }
  }

  function Identity(s: string): string { s }

  /** The keys of `s`, in order. */
  function Keys<T>(s: seq<T>, key: T -> string): (r: seq<string>)
    ensures |r| == |s| && forall i :: 0 <= i < |s| ==> r[i] == key(s[i])
  {
    seq(|s|, i requires 0 <= i < |s| => key(s[i]))
  }

  predicate SortedBy<T>(s: seq<T>, key: T -> string)
  {
    forall i, j :: 0 <= i < j < |s| ==> LexLe(key(s[i]), key(s[j]))
  }

  predicate Sorted(s: seq<string>)
  {
    SortedBy(s, Identity)
  }

  /** Places `x` before the first element whose key is not smaller. */
  function Insert<T>(x: T, s: seq<T>, key: T -> string): (r: seq<T>)
    ensures |r| == |s| + 1 && multiset(r) == multiset(s) + multiset{x}
  {
    if s == [] then [x]
    else if LexLe(key(x), key(s[0])) then [x] + s
    else
      assert s == [s[0]] + s[1..];
      [s[0]] + Insert(x, s[1..], key)
  }

  lemma {:induction false} InsertSorted<T>(x: T, s: seq<T>, key: T -> string)
    requires SortedBy(s, key)
    ensures SortedBy(Insert(x, s, key), key)
  {
    var r := Insert(x, s, key);
    if s == [] {
    } else if LexLe(key(x), key(s[0])) {
      forall j | 0 < j < |r| ensures LexLe(key(r[0]), key(r[j])) {
        if j > 1 { LexLeTrans(key(x), key(s[0]), key(s[j - 1])); }
      }
    } else {
      InsertSorted(x, s[1..], key);
      LexLeTotal(key(x), key(s[0]));
      InsertBounded(x, s[1..], key, key(s[0]));
    }
  }

  /** A lower bound of `x` and of every key of `s` bounds every key after the insertion. */
  lemma {:induction false} InsertBounded<T>(x: T, s: seq<T>, key: T -> string, b: string)
    requires LexLe(b, key(x)) && forall i :: 0 <= i < |s| ==> LexLe(b, key(s[i]))
    ensures forall j :: 0 <= j < |Insert(x, s, key)| ==> LexLe(b, key(Insert(x, s, key)[j]))
  {
    if s != [] && !LexLe(key(x), key(s[0])) {
      InsertBounded(x, s[1..], key, b);
      var t := Insert(x, s[1..], key);
      assert Insert(x, s, key) == [s[0]] + t;
    }
  }

  /** Insertion sort: a sorted permutation of `s`. */
  function SortBy<T>(s: seq<T>, key: T -> string): (r: seq<T>)
    ensures |r| == |s|
    ensures SortedBy(r, key)
  {
    if s == [] then []
    else
      var t := SortBy(s[1..], key);
      InsertSorted(s[0], t, key);
      Insert(s[0], t, key)
  }

  /** The sort is a permutation of its input. */
  lemma {:induction false} SortByPermutation<T>(s: seq<T>, key: T -> string)
    ensures multiset(SortBy(s, key)) == multiset(s)
  {
    if s != [] {
      SortByPermutation(s[1..], key);
      assert s == [s[0]] + s[1..];
    }
  }

  /** `[x]` when the key of `x` is `k`, otherwise nothing. */
  function Own<T>(x: T, key: T -> string, k: string): seq<T>
  {
    if key(x) == k then [x] else []
  }

  /** The elements of `s` whose key is `k`, in their order in `s`. */
  function WithKey<T>(s: seq<T>, key: T -> string, k: string): seq<T>
  {
    if s == [] then [] else Own(s[0], key, k) + WithKey(s[1..], key, k)
  }

  lemma WithKeyCons<T>(x: T, s: seq<T>, key: T -> string, k: string)
    ensures WithKey([x] + s, key, k) == Own(x, key, k) + WithKey(s, key, k)
  {
    assert ([x] + s)[1..] == s;
  }

  /** An element with a smaller key goes in front of `x` without changing what `x` contributes. */
  lemma {:induction false} InsertPast<T>(x: T, s: seq<T>, key: T -> string, k: string)
    requires s != [] && !LexLe(key(x), key(s[0]))
    requires WithKey(Insert(x, s[1..], key), key, k) == Own(x, key, k) + WithKey(s[1..], key, k)
    ensures WithKey(Insert(x, s, key), key, k) == Own(x, key, k) + WithKey(s, key, k)
  {
    var y, rest := s[0], s[1..];
    var t := Insert(x, rest, key);
    assert Insert(x, s, key) == [y] + t;
    LexLeRefl(key(x));
    WithKeyCons(y, t, key, k);
    assert s == [y] + rest;
    WithKeyCons(y, rest, key, k);
    var w := WithKey(rest, key, k);
    if key(x) == k {
      assert Own(y, key, k) == [];
      assert WithKey(Insert(x, s, key), key, k) == [] + ([x] + w);
    } else {
      assert Own(x, key, k) == [];
      assert WithKey(Insert(x, s, key), key, k) == Own(y, key, k) + ([] + w);
    }
  }

  /** Inserting `x` puts it ahead of every element with the same key and keeps their order. */
  lemma {:induction false} InsertWithKey<T>(x: T, s: seq<T>, key: T -> string, k: string)
    ensures WithKey(Insert(x, s, key), key, k) == Own(x, key, k) + WithKey(s, key, k)
  {
    if s == [] || LexLe(key(x), key(s[0])) {
      WithKeyCons(x, s, key, k);
    } else {
      InsertWithKey(x, s[1..], key, k);
      InsertPast(x, s, key, k);
    }
  }

  /** The sort is stable: for every key, the elements carrying it come out in their input order. */
  lemma {:induction false} SortByStable<T>(s: seq<T>, key: T -> string, k: string)
    ensures WithKey(SortBy(s, key), key, k) == WithKey(s, key, k)
  {
    if s != [] {
      SortByStable(s[1..], key, k);
      InsertWithKey(s[0], SortBy(s[1..], key), key, k);
    }
  }

  function SortStrings(s: seq<string>): (r: seq<string>)
    ensures |r| == |s| && multiset(r) == multiset(s) && Sorted(r)
  {
    SortByPermutation(s, Identity);
    SortBy(s, Identity)
  }

  /** Sorting an already sorted sequence leaves it unchanged. */
  lemma {:induction false} SortBySorted<T>(s: seq<T>, key: T -> string)
    requires SortedBy(s, key)
    ensures SortBy(s, key) == s
  {
    if s != [] {
      SortBySorted(s[1..], key);
      assert s == [s[0]] + s[1..];
    }
  }

  lemma SortedHeadLeast(a: seq<string>, x: string)
    requires Sorted(a) && x in multiset(a)
    ensures LexLe(a[0], x)
  {
    var i :| 0 <= i < |a| && a[i] == x;
    if i == 0 { LexLeRefl(x); } else { assert Identity(a[0]) == a[0] && Identity(a[i]) == x; }
  }

  lemma SortedTail(a: seq<string>)
    requires Sorted(a) && a != []
    ensures Sorted(a[1..])
  {
    forall i, j | 0 <= i < j < |a| - 1 ensures LexLe(Identity(a[1..][i]), Identity(a[1..][j])) {
      assert a[1..][i] == a[i + 1] && a[1..][j] == a[j + 1];
    }
  }

  /** A sorted list stays sorted behind an element no larger than any of its own. */
  lemma SortedCons(x: string, t: seq<string>)
    requires Sorted(t) && forall u :: u in t ==> LexLe(x, u)
    ensures Sorted([x] + t)
  {
    var s := [x] + t;
    forall i, j | 0 <= i < j < |s| ensures LexLe(Identity(s[i]), Identity(s[j])) {
      assert s[j] == t[j - 1];
      if i > 0 { assert s[i] == t[i - 1]; }
    }
  }

  /** The head of a sorted list is no larger than any later element. */
  lemma SortedHeadBelow(s: seq<string>, u: string)
    requires Sorted(s) && s != [] && u in s[1..]
    ensures LexLe(s[0], u)
  {
    var k :| 0 <= k < |s[1..]| && s[1..][k] == u;
    assert s[k + 1] == u;
    assert LexLe(Identity(s[0]), Identity(s[k + 1]));
  }

  lemma TailMultiset<T>(a: seq<T>, b: seq<T>)
    requires a != [] && b != [] && a[0] == b[0] && multiset(a) == multiset(b)
    ensures multiset(a[1..]) == multiset(b[1..])
  {
    assert a == [a[0]] + a[1..] && b == [b[0]] + b[1..];
    assert multiset(a[1..]) == multiset(a) - multiset{a[0]};
    assert multiset(b[1..]) == multiset(b) - multiset{b[0]};
  }

  /** Two sorted sequences of strings with the same elements are equal. */
  lemma {:induction false} SortedUnique(a: seq<string>, b: seq<string>)
    requires Sorted(a) && Sorted(b) && multiset(a) == multiset(b)
    ensures a == b
    decreases |a|
  {
    if a == [] {
      assert |b| == |multiset(b)| == 0;
    } else {
      assert |b| == |multiset(b)| == |a|;
      assert a[0] in multiset(b) && b[0] in multiset(a);
      SortedHeadLeast(b, a[0]);
      SortedHeadLeast(a, b[0]);
      LexLeAntisym(a[0], b[0]);
      TailMultiset(a, b);
      SortedTail(a);
      SortedTail(b);
      SortedUnique(a[1..], b[1..]);
    }
  }

  /** Sorted text does not depend on the order the strings came in. */
  lemma SortStringsOrderIndependent(a: seq<string>, b: seq<string>)
    requires multiset(a) == multiset(b)
    ensures SortStrings(a) == SortStrings(b)
  {
    SortedUnique(SortStrings(a), SortStrings(b));
  }

  lemma {:induction false} KeysInsert<T>(x: T, s: seq<T>, key: T -> string)
    ensures Keys(Insert(x, s, key), key) == Insert(key(x), Keys(s, key), Identity)
  {
    if s == [] {
      assert Keys([x], key) == [key(x)];
    } else {
      var ks := Keys(s, key);
      assert Identity(key(x)) == key(x) && Identity(ks[0]) == key(s[0]);
      KeysCons(s[0], s[1..], key);
      assert [s[0]] + s[1..] == s;
      if LexLe(key(x), key(s[0])) {
        KeysCons(x, s, key);
      } else {
        KeysInsert(x, s[1..], key);
        KeysCons(s[0], Insert(x, s[1..], key), key);
      }
    }
  }

  lemma KeysCons<T>(x: T, s: seq<T>, key: T -> string)
    ensures Keys([x] + s, key) == [key(x)] + Keys(s, key)
  {
  }

  /** The keys of the sorted sequence are the sorted keys. */
  lemma {:induction false} KeysSortBy<T>(s: seq<T>, key: T -> string)
    ensures Keys(SortBy(s, key), key) == SortStrings(Keys(s, key))
  {
    if s != [] {
      KeysSortBy(s[1..], key);
      KeysInsert(s[0], SortBy(s[1..], key), key);
      assert Keys(s, key)[1..] == Keys(s[1..], key);
    }
  }

  lemma KeysAppend<T>(a: seq<T>, b: seq<T>, key: T -> string)
    ensures Keys(a + b, key) == Keys(a, key) + Keys(b, key)
  {
  }

  lemma {:induction false} KeysPermutation<T>(a: seq<T>, b: seq<T>, key: T -> string)
    requires multiset(a) == multiset(b)
    ensures multiset(Keys(a, key)) == multiset(Keys(b, key))
    decreases |a|
  {
    if a == [] {
      assert |b| == |multiset(b)| == 0;
    } else {
      var x := a[0];
      assert x in multiset(b);
      var k :| 0 <= k < |b| && b[k] == x;
      var rest := b[..k] + b[k + 1..];
      assert b == b[..k] + [x] + b[k + 1..];
      assert a == [x] + a[1..];
      assert multiset(a) == multiset{x} + multiset(a[1..]);
      assert multiset(b) == multiset(b[..k]) + multiset{x} + multiset(b[k + 1..]);
      assert multiset(rest) == multiset(b[..k]) + multiset(b[k + 1..]);
      assert multiset(a[1..]) == multiset(a) - multiset{x};
      assert multiset(rest) == multiset(b) - multiset{x};
      KeysPermutation(a[1..], rest, key);
      KeysAppend([x], a[1..], key);
      KeysAppend(b[..k] + [x], b[k + 1..], key);
      KeysAppend(b[..k], [x], key);
      KeysAppend(b[..k], b[k + 1..], key);
    }
  }

  /** The keys read back after a sort do not depend on the order the elements came in. */
  lemma SortedKeysOrderIndependent<T>(a: seq<T>, b: seq<T>, key: T -> string)
    requires multiset(a) == multiset(b)
    ensures Keys(SortBy(a, key), key) == Keys(SortBy(b, key), key)
  {
    KeysSortBy(a, key);
    KeysSortBy(b, key);
    KeysPermutation(a, b, key);
    SortStringsOrderIndependent(Keys(a, key), Keys(b, key));
  }

  /** No two equal entries. */
  predicate NoDup<T(==)>(s: seq<T>)
  {
    forall i, j :: 0 <= i < j < |s| ==> s[i] != s[j]
  }

  /** Without duplicates, every element occurs once. */
  lemma {:induction false} NoDupCount<T>(s: seq<T>)
    ensures NoDup(s) <==> forall x :: multiset(s)[x] <= 1
  {
    if s != [] {
      var t := s[1..];
      NoDupCount(t);
      assert s == [s[0]] + t;
      assert multiset(s) == multiset{s[0]} + multiset(t);
      if NoDup(s) {
        forall j | 0 <= j < |t| ensures t[j] != s[0] {
          assert t[j] == s[j + 1];
        }
        assert NoDup(t) by {
          forall i, j | 0 <= i < j < |t| ensures t[i] != t[j] {
            assert t[i] == s[i + 1] && t[j] == s[j + 1];
          }
        }
      }
      if forall x :: multiset(s)[x] <= 1 {
        assert multiset(t)[s[0]] == 0;
        assert forall x :: multiset(t)[x] <= multiset(s)[x];
        forall i, j | 0 <= i < j < |s| ensures s[i] != s[j] {
          if i == 0 {
            assert s[j] in t;
          } else {
            assert t[i - 1] == s[i] && t[j - 1] == s[j];
          }
        }
      }
    }
  }

  /** Fewer copies of the same elements keep the absence of duplicates. */
  lemma NoDupSubMultiset<T>(a: seq<T>, b: seq<T>)
    requires NoDup(a) && multiset(b) <= multiset(a)
    ensures NoDup(b)
  {
    NoDupCount(a);
    NoDupCount(b);
  }

  lemma NoDupAppend<T>(a: seq<T>, x: T)
    requires NoDup(a) && x !in a
    ensures NoDup(a + [x])
  {
  }
}
