/**
 * `rwr/scraper.py`, the option lists of the filter form (`_get_list` and
 * the server types and modes built on it), and the exceptions the module
 * raises.
 */
module RwrScraperLists {
  import opened Wrappers
  import opened Text
  import opened Sorting
  import opened RwrConstants
  import opened RwrServer
  import Seqs

  /** The exceptions of `rwr/scraper.py`. */
  datatype ScraperError = ValueError(message: string) | AttributeError | TypeError

  // ---------------------------------------------------------------- _get_list

  /** One option of a select box of the filter form. */
  datatype OptionEntry = OptionEntry(value: string, caption: string)

  function Value(e: OptionEntry): string { e.value }

  function Label(e: OptionEntry): string { e.caption }

  /** A value Python considers true: present and not empty (`False` is modelled as `None`). */
  predicate Truthy(value: Option<string>)
  {
    value.Some? && value.value != ""
  }

  /** The entries of the servers whose value is truthy, in server order. */
  function TruthyEntries(pairs: seq<(Option<string>, string)>): (r: seq<OptionEntry>)
    ensures forall e :: e in r <==> exists i :: 0 <= i < |pairs| && Truthy(pairs[i].0) && e == OptionEntry(pairs[i].0.value, pairs[i].1)
  {
    if pairs == [] then []
    else
      var n := |pairs| - 1;
      var prev := TruthyEntries(pairs[..n]);
      assert forall i :: 0 <= i < n ==> pairs[..n][i] == pairs[i];
      if Truthy(pairs[n].0) then prev + [OptionEntry(pairs[n].0.value, pairs[n].1)] else prev
  }

  /** `_get_list`: one entry per distinct truthy value, labelled as its first server, sorted by label. */
  function OptionList(pairs: seq<(Option<string>, string)>): seq<OptionEntry>
  {
    SortBy(Seqs.Distinct(TruthyEntries(pairs), Value), Label)
  }

  /** `v` is the key of an element exactly when it is in the list of keys. */
  lemma KeysHasKey<T>(s: seq<T>, key: T -> string, v: string)
    ensures v in Keys(s, key) <==> Seqs.HasKey(s, key, v)
  {
    if v in Keys(s, key) {
      var k :| 0 <= k < |s| && Keys(s, key)[k] == v;
    }
  }

  /** Sorting keeps the same keys. */
  lemma KeysSortByMember<T>(s: seq<T>, sortKey: T -> string, key: T -> string, v: string)
    ensures v in Keys(SortBy(s, sortKey), key) <==> v in Keys(s, key)
  {
    SortByPermutation(s, sortKey);
    KeysPermutation(SortBy(s, sortKey), s, key);
    assert v in Keys(SortBy(s, sortKey), key) <==> v in multiset(Keys(SortBy(s, sortKey), key));
    assert v in Keys(s, key) <==> v in multiset(Keys(s, key));
  }

  /** One more server: its entry is added when its value is truthy and new. */
  lemma GetListStep(pairs: seq<(Option<string>, string)>, i: nat)
    requires i < |pairs|
    ensures var prev := Seqs.Distinct(TruthyEntries(pairs[..i]), Value);
      Seqs.Distinct(TruthyEntries(pairs[..i + 1]), Value) ==
        if Truthy(pairs[i].0) && pairs[i].0.value !in Keys(prev, Value) then prev + [OptionEntry(pairs[i].0.value, pairs[i].1)] else prev
  {
    assert pairs[..i + 1][..i] == pairs[..i];
    var t := TruthyEntries(pairs[..i]);
    var prev := Seqs.Distinct(t, Value);
    if Truthy(pairs[i].0) {
      var e := OptionEntry(pairs[i].0.value, pairs[i].1);
      assert TruthyEntries(pairs[..i + 1]) == t + [e];
      assert (t + [e])[..|t|] == t;
      KeysHasKey(prev, Value, e.value);
    }
  }

  /** What the loop of `_get_list` has kept after the first `i` servers. */
  function Handled(pairs: seq<(Option<string>, string)>, i: nat): seq<OptionEntry>
    requires i <= |pairs|
  {
    if i == 0 then []
    else
      var prev := Handled(pairs, i - 1);
      var (value, caption) := pairs[i - 1];
      if Truthy(value) && value.value !in Keys(prev, Value) then prev + [OptionEntry(value.value, caption)] else prev
  }

  /** The loop keeps the first entry of each truthy value. */
  lemma {:induction false} HandledSpec(pairs: seq<(Option<string>, string)>, i: nat)
    requires i <= |pairs|
    ensures Handled(pairs, i) == Seqs.Distinct(TruthyEntries(pairs[..i]), Value)
  {
    if i > 0 {
      HandledSpec(pairs, i - 1);
      GetListStep(pairs, i - 1);
    }
  }

  /** `_get_list`, given the value and label of every server in list order. */
  method GetList(pairs: seq<(Option<string>, string)>) returns (ret: seq<OptionEntry>)
    ensures ret == OptionList(pairs)
  {
    ret := [];
    var alreadyHandled: seq<string> := [];
    var i := 0;
    while i < |pairs|
      invariant 0 <= i <= |pairs|
      invariant ret == Handled(pairs, i)
      invariant alreadyHandled == Keys(ret, Value)
    {
      var (value, caption) := pairs[i];
      if value.Some? && value.value != "" && value.value !in alreadyHandled {
        var e := OptionEntry(value.value, caption);
        KeysAppend(ret, [e], Value);
        assert Keys([e], Value) == [value.value];
        ret := ret + [e];
        alreadyHandled := alreadyHandled + [value.value];
      }
      i := i + 1;
    }
    HandledList(pairs);
    ret := SortBy(ret, Label);
  }

  /** Sorted by label, what the loop kept is the option list. */
  lemma HandledList(pairs: seq<(Option<string>, string)>)
    ensures SortBy(Handled(pairs, |pairs|), Label) == OptionList(pairs)
  {
    HandledSpec(pairs, |pairs|);
    assert pairs[..|pairs|] == pairs;
  }

  /** The truthy values of the servers. */
  function TruthyValues(pairs: seq<(Option<string>, string)>): (r: set<string>)
    ensures forall i :: 0 <= i < |pairs| && Truthy(pairs[i].0) ==> pairs[i].0.value in r
  {
    set i | 0 <= i < |pairs| && Truthy(pairs[i].0) :: pairs[i].0.value
  }

  /** The option list holds the entries of `Distinct`, reordered. */
  lemma OptionListElements(pairs: seq<(Option<string>, string)>)
    ensures forall e :: e in OptionList(pairs) <==> e in Seqs.Distinct(TruthyEntries(pairs), Value)
  {
    var d := Seqs.Distinct(TruthyEntries(pairs), Value);
    var r := OptionList(pairs);
    SortByPermutation(d, Label);
    forall e
      ensures e in r <==> e in d
    {
      assert e in r <==> e in multiset(r);
      assert e in d <==> e in multiset(d);
    }
  }

  /** The option list is sorted by label. */
  lemma OptionListSorted(pairs: seq<(Option<string>, string)>)
    ensures SortedBy(OptionList(pairs), Label)
  {
  }

  /** The option list offers no value twice. */
  lemma OptionListDistinct(pairs: seq<(Option<string>, string)>)
    ensures forall i, j :: 0 <= i < j < |OptionList(pairs)| ==> OptionList(pairs)[i].value != OptionList(pairs)[j].value
  {
    SortByPermutation(Seqs.Distinct(TruthyEntries(pairs), Value), Label);
    KeysStayDistinct(Seqs.Distinct(TruthyEntries(pairs), Value), OptionList(pairs), Value);
  }

  /** The option list offers exactly the truthy values of the servers. */
  lemma OptionListCovers(pairs: seq<(Option<string>, string)>)
    ensures forall v :: v in Keys(OptionList(pairs), Value) <==> v in TruthyValues(pairs)
  {
    forall v
      ensures v in Keys(OptionList(pairs), Value) <==> v in TruthyValues(pairs)
    {
      if v in TruthyValues(pairs) {
        OptionListHasValue(pairs, v);
      }
      if v in Keys(OptionList(pairs), Value) {
        OptionListOnlyValue(pairs, v);
      }
    }
  }

  lemma OptionListHasValue(pairs: seq<(Option<string>, string)>, v: string)
    requires v in TruthyValues(pairs)
    ensures v in Keys(OptionList(pairs), Value)
  {
    var t := TruthyEntries(pairs);
    var d := Seqs.Distinct(t, Value);
    var r := OptionList(pairs);
    var i :| 0 <= i < |pairs| && Truthy(pairs[i].0) && pairs[i].0.value == v;
    var e := OptionEntry(v, pairs[i].1);
    assert e in t;
    var k :| 0 <= k < |t| && t[k] == e;
    assert Seqs.HasKey(t, Value, v);
    Seqs.DistinctCovers(t, Value, v);
    var m :| 0 <= m < |d| && Value(d[m]) == v;
    OptionListElements(pairs);
    assert d[m] in r;
    KeysHasKey(r, Value, v);
    var n :| 0 <= n < |r| && r[n] == d[m];
    assert Value(r[n]) == v;
  }

  lemma OptionListOnlyValue(pairs: seq<(Option<string>, string)>, v: string)
    requires v in Keys(OptionList(pairs), Value)
    ensures v in TruthyValues(pairs)
  {
    var t := TruthyEntries(pairs);
    var d := Seqs.Distinct(t, Value);
    var r := OptionList(pairs);
    KeysHasKey(r, Value, v);
    var n :| 0 <= n < |r| && Value(r[n]) == v;
    OptionListElements(pairs);
    assert r[n] in d;
    var m :| 0 <= m < |d| && d[m] == r[n];
    assert d[m] in t;
    var i :| 0 <= i < |pairs| && Truthy(pairs[i].0) && r[n] == OptionEntry(pairs[i].0.value, pairs[i].1);
    assert pairs[i].0.value == v;
  }

  /** `e` is an entry of `t` that no earlier entry shares its value with. */
  predicate FirstOfValue(t: seq<OptionEntry>, e: OptionEntry)
  {
    exists j :: 0 <= j < |t| && t[j] == e && !Seqs.HasKey(t[..j], Value, e.value)
  }

  /** Each entry of the option list is the first truthy entry of its value, in server order. */
  lemma OptionListFirst(pairs: seq<(Option<string>, string)>)
    ensures forall e :: e in OptionList(pairs) ==> FirstOfValue(TruthyEntries(pairs), e)
  {
    var t := TruthyEntries(pairs);
    var d := Seqs.Distinct(t, Value);
    OptionListElements(pairs);
    forall e | e in OptionList(pairs)
      ensures FirstOfValue(t, e)
    {
      var m :| 0 <= m < |d| && d[m] == e;
      Seqs.DistinctFirst(t, Value, m);
      var j :| 0 <= j < |t| && t[j] == d[m] && !Seqs.HasKey(t[..j], Value, Value(t[j]));
      assert t[j] == e && Value(t[j]) == e.value;
    }
  }

  /** A permutation of a list whose keys are distinct has distinct keys. */
  lemma KeysStayDistinct<T, K>(d: seq<T>, r: seq<T>, key: T -> K)
    requires multiset(r) == multiset(d)
    requires forall a, b :: 0 <= a < b < |d| ==> key(d[a]) != key(d[b])
    ensures forall i, j :: 0 <= i < j < |r| ==> key(r[i]) != key(r[j])
  {
    assert NoDup(d);
    NoDupSubMultiset(d, r);
    forall i, j | 0 <= i < j < |r|
      ensures key(r[i]) != key(r[j])
    {
      assert r[i] != r[j];
      assert r[i] in multiset(d) && r[j] in multiset(d);
      var a :| 0 <= a < |d| && d[a] == r[i];
      var b :| 0 <= b < |d| && d[b] == r[j];
      assert a != b;
      if a < b {
        assert key(d[a]) != key(d[b]);
      } else {
        assert key(d[b]) != key(d[a]);
      }
    }
  }

  /** Sorting keeps the same elements. */
  lemma SortByElements<T>(s: seq<T>, key: T -> string)
    ensures forall x :: x in SortBy(s, key) <==> x in s
  {
    SortByPermutation(s, key);
    forall x
      ensures x in SortBy(s, key) <==> x in s
    {
      assert x in SortBy(s, key) <==> x in multiset(SortBy(s, key));
      assert x in s <==> x in multiset(s);
    }
  }

  /** An element of a sorted list is at some index of the list before sorting. */
  lemma SortByIndex<T>(s: seq<T>, key: T -> string, x: T) returns (k: nat)
    requires x in SortBy(s, key)
    ensures k < |s| && s[k] == x
  {
    SortByPermutation(s, key);
    assert x in multiset(SortBy(s, key));
    assert x in s;
    k :| 0 <= k < |s| && s[k] == x;
  }

  /** `get_all_servers_types`: the value is the server type, except winter and PvP servers, which are left out. */
  function TypePair(server: Server): (Option<string>, string)
  {
    (if server.serverType == Some("vanilla.winter") || server.serverType == Some("pvp") then None else server.serverType,
     server.typeName)
  }

  function TypePairs(servers: seq<Server>): (r: seq<(Option<string>, string)>)
    ensures |r| == |servers| && forall i :: 0 <= i < |servers| ==> r[i] == TypePair(servers[i])
  {
    seq(|servers|, i requires 0 <= i < |servers| => TypePair(servers[i]))
  }

  /** `get_all_servers_modes`: the value is the mode, the label its long name. */
  function ModePairs(servers: seq<Server>): (r: seq<(Option<string>, string)>)
    ensures |r| == |servers| && forall i :: 0 <= i < |servers| ==> r[i] == (servers[i].mode, servers[i].modeNameLong)
  {
    seq(|servers|, i requires 0 <= i < |servers| => (servers[i].mode, servers[i].modeNameLong))
  }

  /** The type list offers every type of the servers but winter and PvP. */
  lemma TypeListEntries(servers: seq<Server>, v: string)
    ensures v in Keys(OptionList(TypePairs(servers)), Value) <==>
            v != "" && v != "vanilla.winter" && v != "pvp" && exists i :: 0 <= i < |servers| && servers[i].serverType == Some(v)
  {
    var pairs := TypePairs(servers);
    OptionListCovers(pairs);
    if v in TruthyValues(pairs) {
      var i :| 0 <= i < |pairs| && Truthy(pairs[i].0) && pairs[i].0.value == v;
      assert servers[i].serverType == Some(v);
    }
    if v != "" && v != "vanilla.winter" && v != "pvp" && exists i :: 0 <= i < |servers| && servers[i].serverType == Some(v) {
      var i :| 0 <= i < |servers| && servers[i].serverType == Some(v);
      assert pairs[i].0 == Some(v);
    }
  }
}
