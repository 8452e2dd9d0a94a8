/**
 * `rwr/scraper.py`, `get_all_servers_locations`: the grouped option list of
 * continents and countries of the filter form.
 */
module RwrScraperLocations {
  import opened Wrappers
  import opened Text
  import opened Sorting
  import opened RwrServer
  import opened RwrScraperLists
  import Seqs

  // ---------------------------------------------------------------- get_all_servers_locations

  /** A group of the location select box: a continent and its countries. */
  datatype LocationGroup = LocationGroup(value: string, caption: string, entries: seq<OptionEntry>)

  function GroupLabel(g: LocationGroup): string { g.caption }

  function GroupValue(g: LocationGroup): string { g.value }

  function ContinentKey(s: ServerLocation): Option<string> { s.continentCode }

  function CountryKey(s: ServerLocation): Option<string> { s.countryCode }

  /** A server whose country is known. */
  predicate Located(s: ServerLocation)
  {
    Truthy(s.countryCode)
  }

  function ContinentValue(code: string): string { "continent:" + code }

  function CountryValue(code: string): string { "country:" + code }

  /** The servers of a continent, in order. */
  function InContinent(located: seq<ServerLocation>, continent: Option<string>): (r: seq<ServerLocation>)
    ensures forall k :: 0 <= k < |r| ==> r[k] in located && ContinentKey(r[k]) == continent
  {
    if located == [] then []
    else
      var rest := InContinent(located[1..], continent);
      assert forall k :: 0 <= k < |rest| ==> rest[k] in located;
      (if ContinentKey(located[0]) == continent then [located[0]] else []) + rest
  }

  /** The servers of a continent are those of the list that are on it. */
  lemma {:induction false} InContinentMember(located: seq<ServerLocation>, continent: Option<string>, x: ServerLocation)
    ensures x in InContinent(located, continent) <==> x in located && ContinentKey(x) == continent
  {
    if located != [] {
      InContinentMember(located[1..], continent, x);
      assert located == [located[0]] + located[1..];
    }
  }

  /** A continent none of whose servers was seen has none. */
  lemma {:induction false} InContinentNone(located: seq<ServerLocation>, continent: Option<string>)
    requires forall k :: 0 <= k < |located| ==> ContinentKey(located[k]) != continent
    ensures InContinent(located, continent) == []
  {
    if located != [] {
      InContinentNone(located[1..], continent);
    }
  }

  lemma {:induction false} InContinentAppend(located: seq<ServerLocation>, x: ServerLocation, continent: Option<string>)
    ensures InContinent(located + [x], continent) == InContinent(located, continent) + if ContinentKey(x) == continent then [x] else []
  {
    if located == [] {
      assert [x][1..] == [];
    } else {
      assert (located + [x])[1..] == located[1..] + [x];
      InContinentAppend(located[1..], x, continent);
    }
  }

  /** The located servers of a continent, one per country: the first of each. */
  function CountriesIn(located: seq<ServerLocation>, continent: Option<string>): (r: seq<ServerLocation>)
    ensures forall k :: 0 <= k < |r| ==> r[k] in located && ContinentKey(r[k]) == continent
  {
    Seqs.Distinct(InContinent(located, continent), CountryKey)
  }

  /** The entry of the country of a located server. */
  function CountryEntry(s: ServerLocation): OptionEntry
  {
    OptionEntry(CountryValue(s.countryCode.GetOr("")), s.countryName.GetOr(""))
  }

  /** The country entries of a continent, in discovery order. */
  function CountryEntries(countries: seq<ServerLocation>): (r: seq<OptionEntry>)
    ensures |r| == |countries| && forall k :: 0 <= k < |r| ==> r[k] == CountryEntry(countries[k])
  {
    seq(|countries|, k requires 0 <= k < |countries| => CountryEntry(countries[k]))
  }

  /** The group of the continent of `first`, the first located server of that continent. */
  function GroupOf(located: seq<ServerLocation>, first: ServerLocation): LocationGroup
  {
    var countries := CountriesIn(located, ContinentKey(first));
    LocationGroup(ContinentValue(ContinentKey(first).GetOr("")), first.continentName.GetOr(""),
                  SortBy(CountryEntries(countries), Label))
  }


  /**
   * `get_all_servers_locations`: a group per continent of the located
   * servers, sorted by label, each listing its countries sorted by label;
   * a located server of unknown continent makes the concatenation raise.
   */
  function Locations(servers: seq<ServerLocation>): Result<seq<LocationGroup>, ScraperError>
  {
    var located := Seqs.Filter(servers, Located);
    var continents := Seqs.Distinct(located, ContinentKey);
    if exists k :: 0 <= k < |continents| && ContinentKey(continents[k]).None? then Failure(ScraperError.TypeError)
    else Success(SortBy(Groups(located, continents), GroupLabel))
  }

  /** The group of each continent, in order. */
  function Groups(located: seq<ServerLocation>, continents: seq<ServerLocation>): (r: seq<LocationGroup>)
    ensures |r| == |continents|
  {
    if continents == [] then []
    else
      var n := |continents| - 1;
      Groups(located, continents[..n]) + [GroupOf(located, continents[n])]
  }

  lemma LocatedStep(servers: seq<ServerLocation>, i: nat)
    requires i < |servers|
    ensures Seqs.Filter(servers[..i + 1], Located) ==
      Seqs.Filter(servers[..i], Located) + if Located(servers[i]) then [servers[i]] else []
  {
    assert servers[..i + 1] == servers[..i] + [servers[i]];
    Seqs.FilterAppend(servers[..i], [servers[i]], Located);
    assert [servers[i]][1..] == [];
  }

  lemma CountriesInStep(located: seq<ServerLocation>, x: ServerLocation, continent: Option<string>)
    ensures CountriesIn(located + [x], continent) ==
      if ContinentKey(x) == continent && !Seqs.HasKey(CountriesIn(located, continent), CountryKey, CountryKey(x))
      then CountriesIn(located, continent) + [x] else CountriesIn(located, continent)
  {
    InContinentAppend(located, x, continent);
    var f := InContinent(located, continent);
    if ContinentKey(x) == continent {
      assert (f + [x])[..|f|] == f;
    } else {
      assert f + [] == f;
    }
  }

  /** A continent none of whose servers was seen has no countries yet. */
  lemma CountriesInNone(located: seq<ServerLocation>, continent: Option<string>)
    requires !Seqs.HasKey(located, ContinentKey, continent)
    ensures CountriesIn(located, continent) == []
  {
    InContinentNone(located, continent);
  }

  /** The first loop of `get_all_servers_locations` on one located server. */
  function CollectOne(state: (seq<ServerLocation>, map<Option<string>, seq<ServerLocation>>), x: ServerLocation): (seq<ServerLocation>, map<Option<string>, seq<ServerLocation>>)
  {
    var (continents, countries) := state;
    var code := ContinentKey(x);
    if code !in countries then (continents + [x], countries[code := [x]])
    else if !Seqs.HasKey(countries[code], CountryKey, CountryKey(x)) then (continents, countries[code := countries[code] + [x]])
    else (continents, countries)
  }

  /**
   * What the first loop of `get_all_servers_locations` has collected after
   * the given located servers: the first server of each continent, in
   * order, and for each continent the first server of each of its countries.
   */
  function Collected(located: seq<ServerLocation>): (seq<ServerLocation>, map<Option<string>, seq<ServerLocation>>)
  {
    if located == [] then ([], map[])
    else CollectOne(Collected(located[..|located| - 1]), located[|located| - 1])
  }

  lemma CollectedAppend(located: seq<ServerLocation>, x: ServerLocation)
    ensures Collected(located + [x]) == CollectOne(Collected(located), x)
  {
    assert (located + [x])[..|located|] == located;
  }

  /** What is collected is the first server of each continent, and the first server of each country of each continent. */
  lemma {:induction false} CollectedSpec(located: seq<ServerLocation>)
    ensures Collected(located).0 == Seqs.Distinct(located, ContinentKey)
    ensures forall c :: c in Collected(located).1 <==> Seqs.HasKey(Collected(located).0, ContinentKey, c)
    ensures forall c :: c in Collected(located).1 ==> Collected(located).1[c] == CountriesIn(located, c)
  {
    if located != [] {
      var n := |located| - 1;
      var prev := located[..n];
      var x := located[n];
      assert located == prev + [x];
      CollectedSpec(prev);
      assert Collected(located) == CollectOne(Collected(prev), x);
      var (continents, countries) := Collected(prev);
      var code := ContinentKey(x);
      CollectContinents(prev, x, continents, code in countries);
      if code !in countries {
        HasKeyAppend(continents, x, ContinentKey);
        Seqs.DistinctCovers(prev, ContinentKey, code);
        CountriesInNone(prev, code);
      }
      CollectCountries(prev, x, countries);
    }
  }

  lemma CollectContinents(prev: seq<ServerLocation>, x: ServerLocation, continents: seq<ServerLocation>, seen: bool)
    requires continents == Seqs.Distinct(prev, ContinentKey)
    requires seen <==> Seqs.HasKey(continents, ContinentKey, ContinentKey(x))
    ensures Seqs.Distinct(prev + [x], ContinentKey) == if seen then continents else continents + [x]
  {
    assert (prev + [x])[..|prev|] == prev;
  }

  lemma CollectCountries(prev: seq<ServerLocation>, x: ServerLocation, countries: map<Option<string>, seq<ServerLocation>>)
    requires forall c :: c in countries ==> countries[c] == CountriesIn(prev, c)
    requires ContinentKey(x) !in countries ==> CountriesIn(prev, ContinentKey(x)) == []
    ensures var code := ContinentKey(x);
      var after :=
        if code !in countries then countries[code := [x]]
        else if !Seqs.HasKey(countries[code], CountryKey, CountryKey(x)) then countries[code := countries[code] + [x]]
        else countries;
      forall c :: c in after ==> after[c] == CountriesIn(prev + [x], c)
  {
    var code := ContinentKey(x);
    var after :=
      if code !in countries then countries[code := [x]]
      else if !Seqs.HasKey(countries[code], CountryKey, CountryKey(x)) then countries[code := countries[code] + [x]]
      else countries;
    forall c | c in after
      ensures after[c] == CountriesIn(prev + [x], c)
    {
      CountriesInStep(prev, x, c);
      if c == code && code !in countries {
        assert [] + [x] == [x];
      }
    }
  }

  /**
   * `get_all_servers_locations`, given the location of every server in list
   * order: a first loop collects continents and countries, a second builds
   * the groups.
   */
  method ServersLocations(servers: seq<ServerLocation>) returns (r: Result<seq<LocationGroup>, ScraperError>)
    ensures r == Locations(servers)
  {
    var continents, countries := CollectLocations(servers);
    CollectedGroups(servers, continents, countries);
    var groups := BuildGroups(continents, countries);
    if groups.Failure? {
      return Failure(groups.error);
    }
    r := Success(SortBy(groups.value, GroupLabel));
  }

  /** The first loop of `get_all_servers_locations`: the continents in discovery order and the countries of each. */
  method CollectLocations(servers: seq<ServerLocation>)
      returns (continents: seq<ServerLocation>, countries: map<Option<string>, seq<ServerLocation>>)
    ensures (continents, countries) == Collected(Seqs.Filter(servers, Located))
  {
    continents := [];
    countries := map[];
    var i := 0;
    while i < |servers|
      invariant 0 <= i <= |servers|
      invariant (continents, countries) == Collected(Seqs.Filter(servers[..i], Located))
    {
      CollectedStep(servers, i);
      var server := servers[i];
      if Located(server) {
        continents, countries := CollectServer(continents, countries, server);
      }
      i := i + 1;
    }
    assert servers[..|servers|] == servers;
  }

  /** One more server changes what is collected only when it is located. */
  lemma CollectedStep(servers: seq<ServerLocation>, i: nat)
    requires i < |servers|
    ensures Collected(Seqs.Filter(servers[..i + 1], Located)) ==
      if Located(servers[i]) then CollectOne(Collected(Seqs.Filter(servers[..i], Located)), servers[i])
      else Collected(Seqs.Filter(servers[..i], Located))
  {
    LocatedStep(servers, i);
    var located := Seqs.Filter(servers[..i], Located);
    if Located(servers[i]) {
      CollectedAppend(located, servers[i]);
    } else {
      assert located + [] == located;
    }
  }

  /** The body of the first loop: a new continent is appended, and a new country is added to its continent. */
  method CollectServer(continents: seq<ServerLocation>, countries: map<Option<string>, seq<ServerLocation>>, server: ServerLocation)
      returns (continents': seq<ServerLocation>, countries': map<Option<string>, seq<ServerLocation>>)
    ensures (continents', countries') == CollectOne((continents, countries), server)
  {
    continents', countries' := continents, countries;
    var code := ContinentKey(server);
    if code !in countries {
      continents' := continents + [server];
      countries' := countries[code := [server]];
    } else if !Seqs.HasKey(countries[code], CountryKey, CountryKey(server)) {
      countries' := countries[code := countries[code] + [server]];
    }
  }

  /** What the first loop collects is what the second loop needs: a country list per continent, giving the reference groups. */
  lemma CollectedGroups(servers: seq<ServerLocation>, continents: seq<ServerLocation>, countries: map<Option<string>, seq<ServerLocation>>)
    requires (continents, countries) == Collected(Seqs.Filter(servers, Located))
    ensures continents == Seqs.Distinct(Seqs.Filter(servers, Located), ContinentKey)
    ensures forall k :: 0 <= k < |continents| ==> ContinentKey(continents[k]) in countries
    ensures GroupsFrom(continents, countries) == Groups(Seqs.Filter(servers, Located), continents)
  {
    var located := Seqs.Filter(servers, Located);
    CollectedSpec(located);
    forall k | 0 <= k < |continents|
      ensures ContinentKey(continents[k]) in countries
    {
      assert Seqs.HasKey(continents, ContinentKey, ContinentKey(continents[k]));
    }
    GroupsFromSpec(located, continents, countries);
  }

  /** The group the second loop of `get_all_servers_locations` builds for a continent from the collected countries. */
  function GroupFrom(continent: ServerLocation, countries: map<Option<string>, seq<ServerLocation>>): LocationGroup
  {
    var code := ContinentKey(continent);
    LocationGroup(ContinentValue(code.GetOr("")), continent.continentName.GetOr(""),
                  SortBy(CountryEntries(if code in countries then countries[code] else []), Label))
  }

  /** The groups the second loop has built after its first `n` continents. */
  function GroupsUpTo(continents: seq<ServerLocation>, countries: map<Option<string>, seq<ServerLocation>>, n: nat): (r: seq<LocationGroup>)
    requires n <= |continents|
  {
    if n == 0 then []
    else GroupsUpTo(continents, countries, n - 1) + [GroupFrom(continents[n - 1], countries)]
  }

  /** The groups the second loop builds for all the collected continents. */
  function GroupsFrom(continents: seq<ServerLocation>, countries: map<Option<string>, seq<ServerLocation>>): (r: seq<LocationGroup>)
  {
    GroupsUpTo(continents, countries, |continents|)
  }

  /** Built from what the first loop collected, the groups are those of the reference definition. */
  lemma GroupsFromSpec(located: seq<ServerLocation>, continents: seq<ServerLocation>, countries: map<Option<string>, seq<ServerLocation>>)
    requires forall k :: 0 <= k < |continents| ==> ContinentKey(continents[k]) in countries
    requires forall c :: c in countries ==> countries[c] == CountriesIn(located, c)
    ensures GroupsFrom(continents, countries) == Groups(located, continents)
  {
    GroupsUpToSpec(located, continents, countries, |continents|);
    assert continents[..|continents|] == continents;
  }

  lemma {:induction false} GroupsUpToSpec(located: seq<ServerLocation>, continents: seq<ServerLocation>, countries: map<Option<string>, seq<ServerLocation>>, n: nat)
    requires n <= |continents|
    requires forall k :: 0 <= k < |continents| ==> ContinentKey(continents[k]) in countries
    requires forall c :: c in countries ==> countries[c] == CountriesIn(located, c)
    ensures GroupsUpTo(continents, countries, n) == Groups(located, continents[..n])
  {
    if n > 0 {
      GroupsUpToSpec(located, continents, countries, n - 1);
      assert continents[..n][..n - 1] == continents[..n - 1];
      assert continents[..n][n - 1] == continents[n - 1];
    }
  }

  /** The second loop of `get_all_servers_locations`: a group per collected continent, in order. */
  method BuildGroups(continents: seq<ServerLocation>, countries: map<Option<string>, seq<ServerLocation>>)
      returns (r: Result<seq<LocationGroup>, ScraperError>)
    requires forall k :: 0 <= k < |continents| ==> ContinentKey(continents[k]) in countries
    ensures r.Failure? <==> exists k :: 0 <= k < |continents| && ContinentKey(continents[k]).None?
    ensures r.Failure? ==> r.error == ScraperError.TypeError
    ensures r.Success? ==> r.value == GroupsFrom(continents, countries)
  {
    var groups: seq<LocationGroup> := [];
    for k := 0 to |continents|
      invariant forall j :: 0 <= j < k ==> ContinentKey(continents[j]).Some?
      invariant groups == GroupsUpTo(continents, countries, k)
    {
      if ContinentKey(continents[k]).None? {
        return Failure(ScraperError.TypeError);
      }
      groups := AppendGroup(groups, continents, countries, k);
    }
    r := Success(groups);
  }

  /** One turn of the second loop: the group of the next continent is appended. */
  method AppendGroup(groups: seq<LocationGroup>, continents: seq<ServerLocation>, countries: map<Option<string>, seq<ServerLocation>>, k: nat)
      returns (groups': seq<LocationGroup>)
    requires k < |continents| && ContinentKey(continents[k]).Some? && ContinentKey(continents[k]) in countries
    requires groups == GroupsUpTo(continents, countries, k)
    ensures groups' == GroupsUpTo(continents, countries, k + 1)
  {
    var group := BuildGroup(continents[k], countries);
    groups' := groups + [group];
  }

  /** One group of the second loop of `get_all_servers_locations`: an entry per collected country, then the sort. */
  method BuildGroup(continent: ServerLocation, countries: map<Option<string>, seq<ServerLocation>>) returns (group: LocationGroup)
    requires ContinentKey(continent).Some? && ContinentKey(continent) in countries
    ensures group == GroupFrom(continent, countries)
  {
    var code := ContinentKey(continent);
    var servers := countries[code];
    var entries: seq<OptionEntry> := [];
    var j := 0;
    while j < |servers|
      invariant 0 <= j <= |servers|
      invariant |entries| == j && forall t :: 0 <= t < j ==> entries[t] == CountryEntry(servers[t])
    {
      entries := entries + [CountryEntry(servers[j])];
      j := j + 1;
    }
    assert entries == CountryEntries(servers);
    group := LocationGroup(ContinentValue(code.value), continent.continentName.GetOr(""), SortBy(entries, Label));
  }

  lemma HasKeyAppend<T, K>(s: seq<T>, x: T, key: T -> K)
    ensures forall c :: Seqs.HasKey(s + [x], key, c) <==> Seqs.HasKey(s, key, c) || key(x) == c
  {
    forall c
      ensures Seqs.HasKey(s + [x], key, c) <==> Seqs.HasKey(s, key, c) || key(x) == c
    {
      if Seqs.HasKey(s, key, c) {
        var k :| 0 <= k < |s| && key(s[k]) == c;
        assert (s + [x])[k] == s[k];
      }
      if key(x) == c {
        assert (s + [x])[|s|] == x;
      }
      if Seqs.HasKey(s + [x], key, c) {
        var k :| 0 <= k < |s + [x]| && key((s + [x])[k]) == c;
        if k < |s| {
          assert (s + [x])[k] == s[k];
        }
      }
    }
  }

  lemma {:induction false} GroupsAt(located: seq<ServerLocation>, continents: seq<ServerLocation>, k: nat)
    requires k < |continents|
    ensures Groups(located, continents)[k] == GroupOf(located, continents[k])
  {
    var n := |continents| - 1;
    var prev := Groups(located, continents[..n]);
    assert Groups(located, continents) == prev + [GroupOf(located, continents[n])];
    if k < n {
      GroupsAt(located, continents[..n], k);
      assert continents[..n][k] == continents[k];
    }
  }

  /** The value of each group names the continent of its first server. */
  lemma GroupsValues(located: seq<ServerLocation>, continents: seq<ServerLocation>, code: string)
    ensures ContinentValue(code) in Keys(Groups(located, continents), GroupValue) <==>
            exists k :: 0 <= k < |continents| && ContinentValue(ContinentKey(continents[k]).GetOr("")) == ContinentValue(code)
  {
    var keys := Keys(Groups(located, continents), GroupValue);
    forall k | 0 <= k < |continents|
      ensures keys[k] == ContinentValue(ContinentKey(continents[k]).GetOr(""))
    {
      GroupsAt(located, continents, k);
    }
  }

  lemma HasKeyMember<T, K>(s: seq<T>, key: T -> K, c: K)
    ensures Seqs.HasKey(s, key, c) <==> exists x :: x in s && key(x) == c
  {
    if exists x :: x in s && key(x) == c {
      var x :| x in s && key(x) == c;
      var k :| 0 <= k < |s| && s[k] == x;
    }
  }

  /** Some server is located and has `continent`. */
  predicate ServedContinent(servers: seq<ServerLocation>, continent: Option<string>)
  {
    exists i :: 0 <= i < |servers| && Located(servers[i]) && ContinentKey(servers[i]) == continent
  }

  /** A continent is collected exactly when a located server is on it. */
  lemma LocatedHasContinent(servers: seq<ServerLocation>, continent: Option<string>)
    ensures Seqs.HasKey(Seqs.Distinct(Seqs.Filter(servers, Located), ContinentKey), ContinentKey, continent) <==>
            ServedContinent(servers, continent)
  {
    var located := Seqs.Filter(servers, Located);
    Seqs.DistinctCovers(located, ContinentKey, continent);
    HasKeyMember(located, ContinentKey, continent);
    if ServedContinent(servers, continent) {
      var i :| 0 <= i < |servers| && Located(servers[i]) && ContinentKey(servers[i]) == continent;
      assert servers[i] in located;
    }
    if exists x :: x in located && ContinentKey(x) == continent {
      var x :| x in located && ContinentKey(x) == continent;
      var i :| 0 <= i < |servers| && servers[i] == x;
    }
  }

  /** The request fails exactly when a located server has no continent. */
  lemma LocationsFailure(servers: seq<ServerLocation>)
    ensures Locations(servers).Failure? <==> ServedContinent(servers, None)
  {
    var continents := Seqs.Distinct(Seqs.Filter(servers, Located), ContinentKey);
    LocatedHasContinent(servers, None);
    if Seqs.HasKey(continents, ContinentKey, None) {
      var k :| 0 <= k < |continents| && ContinentKey(continents[k]) == None;
      assert ContinentKey(continents[k]).None?;
    }
  }

  lemma ContinentValueInjective(a: string, b: string)
    requires ContinentValue(a) == ContinentValue(b)
    ensures a == b
  {
    assert ContinentValue(a)[10..] == a;
    assert ContinentValue(b)[10..] == b;
  }

  lemma CountryValueInjective(a: string, b: string)
    requires CountryValue(a) == CountryValue(b)
    ensures a == b
  {
    assert CountryValue(a)[8..] == a;
    assert CountryValue(b)[8..] == b;
  }

  /** There is a group for a continent exactly when a located server is on it; the groups are sorted by label. */
  lemma LocationsContinents(servers: seq<ServerLocation>, code: string)
    requires Locations(servers).Success?
    ensures SortedBy(Locations(servers).value, GroupLabel)
    ensures ContinentValue(code) in Keys(Locations(servers).value, GroupValue) <==> ServedContinent(servers, Some(code))
  {
    var located := Seqs.Filter(servers, Located);
    var continents := Seqs.Distinct(located, ContinentKey);
    var groups := Groups(located, continents);
    assert Locations(servers).value == SortBy(groups, GroupLabel);
    KeysSortByMember(groups, GroupLabel, GroupValue, ContinentValue(code));
    GroupsValues(located, continents, code);
    LocatedHasContinent(servers, Some(code));
    if exists k :: 0 <= k < |continents| && ContinentValue(ContinentKey(continents[k]).GetOr("")) == ContinentValue(code) {
      var k :| 0 <= k < |continents| && ContinentValue(ContinentKey(continents[k]).GetOr("")) == ContinentValue(code);
      assert ContinentKey(continents[k]).Some?;
      ContinentValueInjective(ContinentKey(continents[k]).value, code);
    }
    if Seqs.HasKey(continents, ContinentKey, Some(code)) {
      var k :| 0 <= k < |continents| && ContinentKey(continents[k]) == Some(code);
      assert ContinentValue(ContinentKey(continents[k]).GetOr("")) == ContinentValue(code);
    }
  }

  /** Some server is located on `continent` in country `country`. */
  predicate ServedCountry(servers: seq<ServerLocation>, continent: string, country: string)
  {
    exists i :: 0 <= i < |servers| && Located(servers[i]) && ContinentKey(servers[i]) == Some(continent) && CountryKey(servers[i]) == Some(country)
  }

  /** The group of a continent lists a country exactly when a located server is in that country; its entries are sorted by label. */
  lemma LocationsCountries(servers: seq<ServerLocation>, g: LocationGroup, code: string, country: string)
    requires Locations(servers).Success? && g in Locations(servers).value && g.value == ContinentValue(code)
    ensures SortedBy(g.entries, Label)
    ensures CountryValue(country) in Keys(g.entries, Value) <==> ServedCountry(servers, code, country)
  {
    var located := Seqs.Filter(servers, Located);
    var continents := Seqs.Distinct(located, ContinentKey);
    var k := GroupOfResult(servers, g);
    GroupsAt(located, continents, k);
    ContinentValueInjective(ContinentKey(continents[k]).value, code);
    GroupCountries(servers, Some(code), country);
  }

  /** Each group of the result is the group of a collected continent. */
  lemma GroupOfResult(servers: seq<ServerLocation>, g: LocationGroup) returns (k: nat)
    requires Locations(servers).Success? && g in Locations(servers).value
    ensures var continents := Seqs.Distinct(Seqs.Filter(servers, Located), ContinentKey);
      k < |continents| && ContinentKey(continents[k]).Some? && g == Groups(Seqs.Filter(servers, Located), continents)[k]
  {
    var located := Seqs.Filter(servers, Located);
    var continents := Seqs.Distinct(located, ContinentKey);
    var groups := Groups(located, continents);
    assert Locations(servers).value == SortBy(groups, GroupLabel);
    k := SortByIndex(groups, GroupLabel, g);
  }

  /** The sorted country entries of a continent name exactly the countries of its located servers. */
  lemma GroupCountries(servers: seq<ServerLocation>, continent: Option<string>, country: string)
    requires continent.Some?
    ensures CountryValue(country) in Keys(SortBy(CountryEntries(CountriesIn(Seqs.Filter(servers, Located), continent)), Label), Value)
            <==> ServedCountry(servers, continent.value, country)
  {
    var located := Seqs.Filter(servers, Located);
    var inContinent := InContinent(located, continent);
    var d := CountriesIn(located, continent);
    assert d == Seqs.Distinct(inContinent, CountryKey);
    KeysSortByMember(CountryEntries(d), Label, Value, CountryValue(country));
    EntriesOfCountries(located, d, country);
    Seqs.DistinctCovers(inContinent, CountryKey, Some(country));
    InContinentCountry(servers, continent, country);
  }

  /** A list of located servers has an entry for a country exactly when one of them is in it. */
  lemma EntriesOfCountries(located: seq<ServerLocation>, d: seq<ServerLocation>, country: string)
    requires forall k :: 0 <= k < |located| ==> Located(located[k])
    requires forall k :: 0 <= k < |d| ==> d[k] in located
    ensures CountryValue(country) in Keys(CountryEntries(d), Value) <==> Seqs.HasKey(d, CountryKey, Some(country))
  {
    var e := CountryEntries(d);
    if CountryValue(country) in Keys(e, Value) {
      var m :| 0 <= m < |e| && Keys(e, Value)[m] == CountryValue(country);
      var i :| 0 <= i < |located| && located[i] == d[m];
      assert Located(d[m]);
      CountryValueInjective(d[m].countryCode.value, country);
      assert CountryKey(d[m]) == Some(country);
    }
    if Seqs.HasKey(d, CountryKey, Some(country)) {
      var m :| 0 <= m < |d| && CountryKey(d[m]) == Some(country);
      assert Keys(e, Value)[m] == CountryValue(country);
    }
  }

  lemma InContinentCountry(servers: seq<ServerLocation>, continent: Option<string>, country: string)
    requires continent.Some?
    ensures Seqs.HasKey(InContinent(Seqs.Filter(servers, Located), continent), CountryKey, Some(country))
            <==> ServedCountry(servers, continent.value, country)
  {
    var located := Seqs.Filter(servers, Located);
    var inContinent := InContinent(located, continent);
    HasKeyMember(inContinent, CountryKey, Some(country));
    if ServedCountry(servers, continent.value, country) {
      var i :| 0 <= i < |servers| && Located(servers[i]) && ContinentKey(servers[i]) == continent && CountryKey(servers[i]) == Some(country);
      assert servers[i] in located;
      InContinentMember(located, continent, servers[i]);
    }
    if exists x :: x in inContinent && CountryKey(x) == Some(country) {
      var x :| x in inContinent && CountryKey(x) == Some(country);
      InContinentMember(located, continent, x);
      var i :| 0 <= i < |servers| && servers[i] == x;
    }
  }
}
