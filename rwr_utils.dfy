/**
 * The lookups and parsers of `rwr/utils.py`: game mode, game type and
 * database names with their fallbacks, the time-played parser, the map
 * path parser and the map table queries.
 */
module RwrUtils {
  import opened Wrappers
  import Text
  import Decimal
  import opened RwrConstants

  /** A Python `dict` with string keys, as its items in insertion order; `d[k]` is the first item with key `k`. */
  function Lookup<V>(d: seq<(string, V)>, k: string): (r: Option<V>)
    ensures r.None? <==> forall i :: 0 <= i < |d| ==> d[i].0 != k
    ensures r.Some? ==> exists i :: 0 <= i < |d| && d[i] == (k, r.value)
  {
    if d == [] then None
    else if d[0].0 == k then Some(d[0].1)
    else
      var r := Lookup(d[1..], k);
      assert forall i :: 1 <= i < |d| ==> d[i] == d[1..][i - 1];
      r
  }

  // ---------------------------------------------------------------- names

  /** `get_mode_name(mode, short)`: the label of a known mode, the mode itself otherwise, `'N/A'` for `None`. */
  function ModeName(mode: Option<string>, short: bool): (r: string)
    ensures mode.Some? && mode.value in ServerModes ==>
      r == (if short then ServerModes[mode.value].0 else ServerModes[mode.value].1)
    ensures mode.Some? && mode.value !in ServerModes ==> r == mode.value
    ensures mode.None? ==> r == "N/A"
  {
    match mode
    case None => "N/A"
    case Some(m) =>
      if m in ServerModes then (if short then ServerModes[m].0 else ServerModes[m].1) else m
  }

  /** Only the two abbreviated modes have a short label that differs from the long one. */
  lemma ModeLabelsDiffer(mode: string)
    requires mode in ServerModes
    ensures ModeName(Some(mode), true) != ModeName(Some(mode), false) <==> mode == "COOP" || mode == "DOM"
  {
  }

  /** `get_type_name(type)`: the display name of a known type, the type itself otherwise, `'N/A'` for `None`. */
  function TypeName(serverType: Option<string>): (r: string)
    ensures serverType.Some? && serverType.value in ServerTypes ==> r == ServerTypes[serverType.value]
    ensures serverType.Some? && serverType.value !in ServerTypes ==> r == serverType.value
    ensures serverType.None? ==> r == "N/A"
  {
    match serverType
    case None => "N/A"
    case Some(t) => if t in ServerTypes then ServerTypes[t] else t
  }

  /** The entry of `PLAYERS_LIST_DATABASES` with the given key. */
  function FindDatabase(key: string): (r: Option<Database>)
    ensures r.Some? <==> key in ValidDatabases
    ensures r.Some? ==> r.value in PlayersListDatabases && r.value.key == key
  {
    if key == "invasion" then Some(PlayersListDatabases[0])
    else if key == "pacific" then Some(PlayersListDatabases[1])
    else None
  }

  /** `get_database_name(database)`: the name of a known database, otherwise `None`. */
  function DatabaseName(database: Option<string>): (r: Option<string>)
    ensures r.Some? <==> database.Some? && database.value in ValidDatabases
    ensures r.Some? ==> exists d :: d in PlayersListDatabases && d.key == database.value && d.name == r.value
  {
    match database
    case None => None
    case Some(k) =>
      match FindDatabase(k)
      case None => None
      case Some(d) => Some(d.name)
  }

  // ---------------------------------------------------------------- parse_time

  /**
   * One `(?P<x>\d+)<unit>` component of the time pattern at the start of `s`:
   * its value and what follows the unit letter.
   */
  function Component(s: string, unit: char): (r: Option<(nat, string)>)
    requires !Decimal.IsDigit(unit)
    ensures r.Some? ==> |r.value.1| < |s|
  {
    var n := Decimal.DigitPrefix(s);
    if n >= 1 && n < |s| && s[n] == unit then Some((Decimal.DigitsValue(s[..n]), s[n + 1..])) else None
  }

  /** The optional `(?P<h>\d+)h\s*` part: the hours, and the text after it. */
  function HoursPart(s: string): (nat, string)
  {
    match Component(s, 'h')
    case Some((v, rest)) => (v, Text.TrimStart(rest))
    case None => (0, s)
  }

  /** The optional `(?P<m>\d+)m(?:in)?\s*` part: the minutes, and the text after it. */
  function MinutesPart(s: string): (nat, string)
  {
    match Component(s, 'm')
    case Some((v, rest)) => (v, Text.TrimStart(if Text.StartsWith(rest, "in") then rest[2..] else rest))
    case None => (0, s)
  }

  /** The optional `(?P<s>\d+)s` part: the seconds. */
  function SecondsPart(s: string): nat
  {
    match Component(s, 's')
    case Some((v, _)) => v
    case None => 0
  }

  /**
   * `parse_time(string)`: `_time_regex.match`, the hours, minutes and seconds
   * parts in turn; missing parts count as 0. The pattern can match the empty
   * prefix, so every text gives a number and the `None` branch of the source
   * is never taken.
   */
  function ParseTime(s: string): nat
  {
    var (h, s1) := HoursPart(s);
    var (m, s2) := MinutesPart(s1);
    SecondsPart(s2) + 60 * m + 3600 * h
  }

  function HoursText(hours: Option<nat>): string
  {
    if hours.Some? then Decimal.NatToString(hours.value) + "h " else ""
  }

  function MinutesText(minutes: Option<nat>): string
  {
    if minutes.Some? then Decimal.NatToString(minutes.value) + "min " else ""
  }

  function SecondsText(seconds: Option<nat>): string
  {
    if seconds.Some? then Decimal.NatToString(seconds.value) + "s" else ""
  }

  /** The text the game shows for a duration: each present component, `h`, `min`, `s`, space separated. */
  function TimeText(hours: Option<nat>, minutes: Option<nat>, seconds: Option<nat>): string
  {
    HoursText(hours) + MinutesText(minutes) + SecondsText(seconds)
  }

  lemma ComponentOf(v: nat, unit: char, rest: string)
    requires !Decimal.IsDigit(unit)
    ensures Component(Decimal.NatToString(v) + [unit] + rest, unit) == Some((v, rest))
  {
    var d := Decimal.NatToString(v);
    var s := d + [unit] + rest;
    assert s == d + ([unit] + rest);
    Decimal.DigitPrefixOf(d, [unit] + rest);
    assert s[..|d|] == d;
    assert s[|d| + 1..] == rest;
    Decimal.NatToStringValue(v);
  }

  lemma ComponentOther(v: nat, unit: char, other: char, rest: string)
    requires !Decimal.IsDigit(unit) && !Decimal.IsDigit(other) && unit != other
    ensures Component(Decimal.NatToString(v) + [other] + rest, unit) == None
  {
    var d := Decimal.NatToString(v);
    var s := d + [other] + rest;
    assert s == d + ([other] + rest);
    Decimal.DigitPrefixOf(d, [other] + rest);
  }

  lemma ComponentNoDigit(s: string, unit: char)
    requires !Decimal.IsDigit(unit)
    requires s == [] || !Decimal.IsDigit(s[0])
    ensures Component(s, unit) == None
  {
  }

  lemma TrimStartFromDigit(s: string)
    requires s == [] || Decimal.IsDigit(s[0])
    ensures Text.TrimStart(s) == s
  {
    assert s != [] ==> !Text.IsSpace(s[0]);
  }

  lemma TrimStartSpaceDigit(s: string)
    requires s == [] || Decimal.IsDigit(s[0])
    ensures Text.TrimStart(" " + s) == s
  {
    var t := " " + s;
    assert t[0] == ' ' && Text.IsSpace(' ');
    assert t[1..] == s;
    TrimStartFromDigit(s);
  }

  lemma SecondsPartText(seconds: Option<nat>)
    ensures SecondsPart(SecondsText(seconds)) == seconds.GetOr(0)
  {
    if seconds.Some? {
      assert SecondsText(seconds) == Decimal.NatToString(seconds.value) + ['s'] + [];
      ComponentOf(seconds.value, 's', []);
    } else {
      ComponentNoDigit([], 's');
    }
  }

  /** A minutes-and-seconds text has no hours component and no leading space. */
  lemma NoHoursComponent(minutes: Option<nat>, seconds: Option<nat>, unit: char)
    requires unit == 'h' || (unit == 'm' && minutes.None?)
    ensures Component(MinutesText(minutes) + SecondsText(seconds), unit) == None
    ensures Text.TrimStart(MinutesText(minutes) + SecondsText(seconds)) == MinutesText(minutes) + SecondsText(seconds)
  {
    var t2 := SecondsText(seconds);
    var t1 := MinutesText(minutes) + t2;
    if minutes.Some? {
      assert t1 == Decimal.NatToString(minutes.value) + ['m'] + ("in " + t2);
      ComponentOther(minutes.value, unit, 'm', "in " + t2);
    } else if seconds.Some? {
      assert t1 == Decimal.NatToString(seconds.value) + ['s'] + [];
      ComponentOther(seconds.value, unit, 's', []);
    } else {
      ComponentNoDigit(t1, unit);
    }
    assert t1 == [] || Decimal.IsDigit(t1[0]);
    TrimStartFromDigit(t1);
  }

  lemma MinutesPartOf(v: nat, rest: string)
    requires rest == [] || Decimal.IsDigit(rest[0])
    ensures MinutesPart(Decimal.NatToString(v) + "min " + rest) == (v, rest)
  {
    assert Decimal.NatToString(v) + "min " + rest == Decimal.NatToString(v) + ['m'] + ("in " + rest);
    ComponentOf(v, 'm', "in " + rest);
    MinutesSuffix(rest);
  }

  /** What follows the `m` of `min ` reads back as the text after the space. */
  lemma MinutesSuffix(rest: string)
    requires rest == [] || Decimal.IsDigit(rest[0])
    ensures var after := "in " + rest;
      Text.TrimStart(if Text.StartsWith(after, "in") then after[2..] else after) == rest
  {
    var after := "in " + rest;
    assert Text.StartsWith(after, "in");
    assert after[2..] == " " + rest;
    TrimStartSpaceDigit(rest);
  }

  lemma MinutesPartText(minutes: Option<nat>, seconds: Option<nat>)
    ensures MinutesPart(MinutesText(minutes) + SecondsText(seconds)) == (minutes.GetOr(0), SecondsText(seconds))
  {
    var t2 := SecondsText(seconds);
    var t1 := MinutesText(minutes) + t2;
    if minutes.Some? {
      assert t2 == [] || Decimal.IsDigit(t2[0]);
      MinutesPartOf(minutes.value, t2);
    } else {
      NoHoursComponent(minutes, seconds, 'm');
      assert t1 == t2;
    }
  }

  lemma HoursPartOf(v: nat, rest: string)
    requires rest == [] || Decimal.IsDigit(rest[0])
    ensures HoursPart(Decimal.NatToString(v) + "h " + rest) == (v, rest)
  {
    assert Decimal.NatToString(v) + "h " + rest == Decimal.NatToString(v) + ['h'] + (" " + rest);
    ComponentOf(v, 'h', " " + rest);
    TrimStartSpaceDigit(rest);
  }

  lemma HoursPartText(hours: Option<nat>, minutes: Option<nat>, seconds: Option<nat>)
    ensures HoursPart(TimeText(hours, minutes, seconds)) == (hours.GetOr(0), MinutesText(minutes) + SecondsText(seconds))
  {
    var t1 := MinutesText(minutes) + SecondsText(seconds);
    assert TimeText(hours, minutes, seconds) == HoursText(hours) + t1;
    if hours.Some? {
      assert t1 == [] || Decimal.IsDigit(t1[0]) by {
        if minutes.None? {
          assert t1 == SecondsText(seconds);
        }
      }
      HoursPartOf(hours.value, t1);
    } else {
      assert HoursText(hours) + t1 == t1;
      NoHoursComponent(minutes, seconds, 'h');
    }
  }

  /**
   * Reading back the shown text of a duration gives `s + 60*m + 3600*h`,
   * every missing component counting as 0.
   */
  lemma ParseTimeText(hours: Option<nat>, minutes: Option<nat>, seconds: Option<nat>)
    ensures ParseTime(TimeText(hours, minutes, seconds))
      == hours.GetOr(0) * 3600 + minutes.GetOr(0) * 60 + seconds.GetOr(0)
  {
    HoursPartText(hours, minutes, seconds);
    MinutesPartText(minutes, seconds);
    SecondsPartText(seconds);
  }

  /** Text that does not start with a digit has no component: it reads as 0. */
  lemma ParseTimeNoDigit(s: string)
    requires s == [] || !Decimal.IsDigit(s[0])
    ensures ParseTime(s) == 0
  {
    ComponentNoDigit(s, 'h');
    ComponentNoDigit(s, 'm');
    ComponentNoDigit(s, 's');
  }

  // ---------------------------------------------------------------- parse_map_path

  /** Length of the leading run of characters other than `c` (a greedy `[^c]+` or `.+`). */
  function RunWithout(s: string, c: char): (n: nat)
    ensures n <= |s| && c !in s[..n]
    ensures n == |s| || s[n] == c
  {
    if s == [] || s[0] == c then 0
    else
      var n := RunWithout(s[1..], c);
      assert s[..n + 1] == [s[0]] + s[1..][..n];
      n + 1
  }

  /**
   * `/(?P<server_type>.[^/]+)/maps/(?P<map_id>.+)$` tried at position `i`:
   * a slash, one character other than a newline, a run of characters other
   * than a slash, `/maps/`, then a run of characters other than a newline
   * reaching the end of the text or its final newline.
   */
  function MapPathAt(s: string, i: nat): (r: Option<(string, string)>)
    requires i <= |s|
  {
    if i + 2 > |s| || s[i] != '/' || s[i + 1] == '\n' then None
    else
      var k := i + 2 + RunWithout(s[i + 2..], '/');
      if k == i + 2 || !Text.StartsWith(s[k..], "/maps/") then None
      else
        var e := k + 6 + RunWithout(s[k + 6..], '\n');
        if e == k + 6 then None
        else if e == |s| || (e == |s| - 1 && s[e] == '\n') then Some((s[i + 1..k], s[k + 6..e]))
        else None
  }

  /** `re.search`: the leftmost position at or after `i` where the pattern matches. */
  function SearchMapPath(s: string, i: nat): Option<(string, string)>
    requires i <= |s|
    decreases |s| - i
  {
    match MapPathAt(s, i)
    case Some(r) => Some(r)
    case None => if i == |s| then None else SearchMapPath(s, i + 1)
  }

  /** `parse_map_path(map_path)`: the game type and the map id, or `(None, None)` when the pattern is absent. */
  function ParseMapPath(s: string): (r: (Option<string>, Option<string>))
    ensures r.0.Some? <==> r.1.Some?
  {
    match SearchMapPath(s, 0)
    case Some((t, m)) => (Some(t), Some(m))
    case None => (None, None)
  }

  lemma {:induction false} SearchMapPathAbsent(s: string, i: nat)
    requires i <= |s|
    requires !Text.Contains(s[i..], "/maps/")
    ensures SearchMapPath(s, i) == None
    decreases |s| - i
  {
    if i + 2 <= |s| && s[i] == '/' && s[i + 1] != '\n' {
      var k := i + 2 + RunWithout(s[i + 2..], '/');
      if Text.StartsWith(s[k..], "/maps/") {
        assert s[i..][k - i..] == s[k..];
        Text.ContainsAt(s[i..], "/maps/");
      }
    }
    if i < |s| {
      assert s[i..][1..] == s[i + 1..];
      SearchMapPathAbsent(s, i + 1);
    }
  }

  /** A path without `/maps/` yields no game type and no map id. */
  lemma ParseMapPathAbsent(s: string)
    requires !Text.Contains(s, "/maps/")
    ensures ParseMapPath(s) == (None, None)
  {
    assert s[0..] == s;
    SearchMapPathAbsent(s, 0);
  }

  /** A well-formed `/<type>/maps/<id>` path yields the segment before `/maps/` and the remainder. */
  lemma ParseMapPathOf(serverType: string, mapId: string)
    requires |serverType| >= 2 && serverType[0] != '\n' && '/' !in serverType[1..]
    requires |mapId| >= 1 && '\n' !in mapId
    ensures ParseMapPath("/" + serverType + "/maps/" + mapId) == (Some(serverType), Some(mapId))
  {
    var s := "/" + serverType + "/maps/" + mapId;
    var k := |serverType| + 1;
    assert s[2..] == serverType[1..] + "/maps/" + mapId;
    assert RunWithout(s[2..], '/') == |serverType| - 1 by {
      RunWithoutOf(serverType[1..], '/', "/maps/" + mapId);
      assert s[2..] == serverType[1..] + ("/maps/" + mapId);
    }
    assert s[k..] == "/maps/" + mapId;
    assert s[k + 6..] == mapId;
    assert RunWithout(s[k + 6..], '\n') == |mapId| by {
      RunWithoutOf(mapId, '\n', []);
      assert mapId + [] == mapId;
    }
    assert Text.StartsWith(s[k..], "/maps/");
    assert k + 6 + |mapId| == |s|;
    assert s[1..k] == serverType;
    assert s[k + 6..|s|] == mapId;
    assert MapPathAt(s, 0) == Some((serverType, mapId));
  }

  lemma {:induction false} RunWithoutOf(a: string, c: char, rest: string)
    requires c !in a
    requires rest == [] || rest[0] == c
    ensures RunWithout(a + rest, c) == |a|
  {
    if a != [] {
      assert (a + rest)[1..] == a[1..] + rest;
      RunWithoutOf(a[1..], c, rest);
    }
  }

  // ---------------------------------------------------------------- maps

  /** What the maps data file says about one map. A falsy name is the empty string. */
  datatype MapInfo = MapInfo(name: string, hasMinimap: bool, hasPreview: bool)

  /** `MAPS`: for each game type, its maps by id, both in file order. */
  type MapTable = seq<(string, seq<(string, MapInfo)>)>

  /** A map as `get_map` / `get_maps` hand it out, tagged with its `id` and `server_type`. */
  datatype MapEntry = MapEntry(id: string, serverType: string, info: MapInfo)

  /** `get_map(server_type, map_id)`: the map when both keys are known, otherwise `None`. */
  function GetMap(maps: MapTable, serverType: string, mapId: string): (r: Option<MapEntry>)
    ensures r.Some? <==> Lookup(maps, serverType).Some? && Lookup(Lookup(maps, serverType).value, mapId).Some?
    ensures r.Some? ==> r.value.id == mapId && r.value.serverType == serverType
  {
    match Lookup(maps, serverType)
    case None => None
    case Some(ms) =>
      match Lookup(ms, mapId)
      case None => None
      case Some(info) => Some(MapEntry(mapId, serverType, info))
  }

  /** `_filter_map`: a `has_minimap` filter, when given, must equal the map's flag. */
  predicate KeepMap(hasMinimap: Option<bool>, info: MapInfo)
  {
    hasMinimap.None? || hasMinimap.value == info.hasMinimap
  }

  /** The entries `get_maps` yields for the first `|ms|` maps of one game type. */
  function TypeListing(serverType: string, ms: seq<(string, MapInfo)>, hasMinimap: Option<bool>): (r: seq<MapEntry>)
    ensures forall e :: e in r ==> KeepMap(hasMinimap, e.info) && e.serverType == serverType
  {
    if ms == [] then []
    else
      var m := ms[|ms| - 1];
      TypeListing(serverType, ms[..|ms| - 1], hasMinimap)
        + (if KeepMap(hasMinimap, m.1) then [MapEntry(m.0, serverType, m.1)] else [])
  }

  /** The flattened, filtered listing `get_maps` yields for a map table. */
  function Listing(maps: MapTable, hasMinimap: Option<bool>): (r: seq<MapEntry>)
    ensures forall e :: e in r ==> KeepMap(hasMinimap, e.info)
  {
    if maps == [] then []
    else
      var t := maps[|maps| - 1];
      Listing(maps[..|maps| - 1], hasMinimap) + TypeListing(t.0, t.1, hasMinimap)
  }

  lemma TypeListingStep(serverType: string, ms: seq<(string, MapInfo)>, hasMinimap: Option<bool>, j: nat)
    requires j < |ms|
    ensures TypeListing(serverType, ms[..j + 1], hasMinimap) == TypeListing(serverType, ms[..j], hasMinimap)
      + (if KeepMap(hasMinimap, ms[j].1) then [MapEntry(ms[j].0, serverType, ms[j].1)] else [])
  {
    assert ms[..j + 1][..j] == ms[..j];
  }

  lemma ListingStep(maps: MapTable, hasMinimap: Option<bool>, i: nat)
    requires i < |maps|
    ensures Listing(maps[..i + 1], hasMinimap) == Listing(maps[..i], hasMinimap) + TypeListing(maps[i].0, maps[i].1, hasMinimap)
  {
    assert maps[..i + 1][..i] == maps[..i];
  }

  /** `get_maps(has_minimap=...)`: every map of every game type, in table order, that the filter keeps. */
  method GetMaps(maps: MapTable, hasMinimap: Option<bool>) returns (ret: seq<MapEntry>)
    ensures ret == Listing(maps, hasMinimap)
  {
    ret := [];
    var i := 0;
    while i < |maps|
      invariant 0 <= i <= |maps|
      invariant ret == Listing(maps[..i], hasMinimap)
    {
      var (serverType, ms) := maps[i];
      var j := 0;
      while j < |ms|
        invariant 0 <= j <= |ms|
        invariant ret == Listing(maps[..i], hasMinimap) + TypeListing(serverType, ms[..j], hasMinimap)
      {
        var (mapId, info) := ms[j];
        TypeListingStep(serverType, ms, hasMinimap, j);
        if KeepMap(hasMinimap, info) {
          ret := ret + [MapEntry(mapId, serverType, info)];
        }
        j := j + 1;
      }
      assert ms[..j] == ms;
      ListingStep(maps, hasMinimap, i);
      i := i + 1;
    }
    assert maps[..i] == maps;
  }

  lemma {:induction false} TypeListingComplete(serverType: string, ms: seq<(string, MapInfo)>, hasMinimap: Option<bool>, j: nat)
    requires j < |ms| && KeepMap(hasMinimap, ms[j].1)
    ensures MapEntry(ms[j].0, serverType, ms[j].1) in TypeListing(serverType, ms, hasMinimap)
  {
    if j < |ms| - 1 {
      TypeListingComplete(serverType, ms[..|ms| - 1], hasMinimap, j);
    }
  }

  /** Every map the filter keeps is listed by `get_maps`. */
  lemma {:induction false} ListingComplete(maps: MapTable, hasMinimap: Option<bool>, i: nat, j: nat)
    requires i < |maps| && j < |maps[i].1| && KeepMap(hasMinimap, maps[i].1[j].1)
    ensures MapEntry(maps[i].1[j].0, maps[i].0, maps[i].1[j].1) in Listing(maps, hasMinimap)
  {
    if i < |maps| - 1 {
      ListingComplete(maps[..|maps| - 1], hasMinimap, i, j);
    } else {
      TypeListingComplete(maps[i].0, maps[i].1, hasMinimap, j);
    }
  }

  /** The map `get_map` finds is one `get_maps` lists, whenever the filter keeps it. */
  lemma GetMapListed(maps: MapTable, serverType: string, mapId: string, hasMinimap: Option<bool>)
    requires GetMap(maps, serverType, mapId).Some?
    requires KeepMap(hasMinimap, GetMap(maps, serverType, mapId).value.info)
    ensures GetMap(maps, serverType, mapId).value in Listing(maps, hasMinimap)
  {
    var ms := Lookup(maps, serverType).value;
    var i :| 0 <= i < |maps| && maps[i] == (serverType, ms);
    var info := Lookup(ms, mapId).value;
    var j :| 0 <= j < |ms| && ms[j] == (mapId, info);
    ListingComplete(maps, hasMinimap, i, j);
  }
}
