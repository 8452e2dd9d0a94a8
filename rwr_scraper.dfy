/**
 * `rwr/scraper.py`: what the site computes from the parsed list of public
 * servers (filtering, counters, searches by address, name or player) and the argument checks of the
 * players list request.
 *
 * The server list itself comes from HTTP requests, XML/HTML parsing and a
 * geolocation database; here it is the input `servers`.
 */
module RwrScraper {
  import opened Wrappers
  import opened Text
  import opened Sorting
  import opened RwrConstants
  import opened RwrServer
  import opened RwrScraperLists
  import Seqs

  // ---------------------------------------------------------------- lookups

  /** The arguments of `get_server_by_ip_and_port(*args)`. */
  datatype Arg = Text(s: string) | Number(n: int)

  /** The message of the `ValueError` of `get_server_by_ip_and_port` for a wrong number of arguments. */
  const IpAndPortUsage := "get_server_by_ip_and_port takes either one IP:port string argument or two IP (string) and port (int) arguments"

  /** The test of `get_server_by_ip_and_port` for one server. */
  predicate IpAndPortMatch(server: Server, args: seq<Arg>)
    requires |args| == 1 || |args| == 2
  {
    if |args| == 1 then args[0] == Text(server.ipAndPort)
    else args[0] == Text(server.ip) && args[1] == Number(server.port)
  }

  /** `get_server_by_ip_and_port`: a search loop with an early return. */
  method ServerByIpAndPort(servers: seq<Server>, args: seq<Arg>) returns (r: Result<Option<Server>, ScraperError>)
    ensures r.Failure? <==> |args| != 1 && |args| != 2
    ensures r.Success? ==> (r.value.Some? <==> exists i :: 0 <= i < |servers| && IpAndPortMatch(servers[i], args))
    ensures r.Success? && r.value.Some? ==>
      exists i :: 0 <= i < |servers| && servers[i] == r.value.value && IpAndPortMatch(servers[i], args) &&
        forall j :: 0 <= j < i ==> !IpAndPortMatch(servers[j], args)
  {
    if |args| != 1 && |args| != 2 {
      return Failure(ScraperError.ValueError(IpAndPortUsage));
    }
    var i := 0;
    while i < |servers|
      invariant 0 <= i <= |servers|
      invariant forall j :: 0 <= j < i ==> !IpAndPortMatch(servers[j], args)
    {
      if IpAndPortMatch(servers[i], args) {
        return Success(Some(servers[i]));
      }
      i := i + 1;
    }
    return Success(None);
  }

  /** The test of `get_server_by_name`: a case-insensitive substring of the server name. */
  predicate NameMatch(server: Server, name: string)
  {
    Contains(Lower(server.name), Lower(name))
  }

  /** `get_server_by_name`: the first server whose name contains `name`, ignoring case. */
  method ServerByName(servers: seq<Server>, name: string) returns (r: Option<Server>)
    ensures r.None? <==> forall i :: 0 <= i < |servers| ==> !NameMatch(servers[i], name)
    ensures r.Some? ==> exists i :: (0 <= i < |servers| && servers[i] == r.value && NameMatch(servers[i], name) &&
      forall j :: 0 <= j < i ==> !NameMatch(servers[j], name))
  {
    var lowered := Lower(name);
    var i := 0;
    while i < |servers|
      invariant 0 <= i <= |servers|
      invariant forall j :: 0 <= j < i ==> !NameMatch(servers[j], name)
    {
      if Contains(Lower(servers[i].name), lowered) {
        return Some(servers[i]);
      }
      i := i + 1;
    }
    return None;
  }

  /** Every server whose name is exactly `name`, in any case, is found by the search. */
  lemma NameMatchesItself(server: Server)
    ensures NameMatch(server, server.name)
  {
    assert StartsWith(Lower(server.name), Lower(server.name));
  }

  // ---------------------------------------------------------------- filter_servers

  /** The keyword arguments of `filter_servers`; a missing `location`, `map`, `type` or `mode` is `"any"`. */
  datatype Filters = Filters(
    location: string, mapId: string, serverType: string, mode: string,
    dedicated: Option<string>, ranked: Option<string>, notEmpty: Option<string>, notFull: Option<string>,
    database: Option<string>, username: Option<string>, limit: Option<int>)

  const NoFilters := Filters("any", "any", "any", "any", None, None, None, None, None, None, None)

  /** The location criterion. */
  function LocationMatch(location: string, loc: ServerLocation): (r: bool)
  {
    if location == "any" then true
    else
      var (locationType, locationCode) := if ':' in location then SplitFirst(location, ':').value else ("country", location);
      if locationType == "continent" then Some(locationCode) == loc.continentCode
      else if locationType == "country" then Some(locationCode) == loc.countryCode
      else true
  }

  /** `continent:<code>` compares the continent code, `country:<code>` or a bare `<code>` the country code. */
  lemma LocationMatchOf(code: string, loc: ServerLocation)
    ensures LocationMatch("continent:" + code, loc) <==> loc.continentCode == Some(code)
    ensures LocationMatch("country:" + code, loc) <==> loc.countryCode == Some(code)
    ensures code != "any" && ':' !in code ==> (LocationMatch(code, loc) <==> loc.countryCode == Some(code))
  {
    assert "continent:" + code == "continent" + [':'] + code;
    assert "country:" + code == "country" + [':'] + code;
    FindCharAfterFree("continent", ':', code);
    FindCharAfterFree("country", ':', code);
    assert ("continent" + [':'] + code)[..9] == "continent";
    assert ("continent" + [':'] + code)[10..] == code;
    assert ("country" + [':'] + code)[..7] == "country";
    assert ("country" + [':'] + code)[8..] == code;
  }

  /** The type criterion: a `vanilla*` filter accepts every `vanilla*` or `pvp` server; reading the type of a typeless server raises. */
  function TypeMatch(filterType: string, serverType: Option<string>): (r: Result<bool, ScraperError>)
    ensures filterType == "any" ==> r == Success(true)
    ensures filterType != "any" && !StartsWith(filterType, "vanilla") ==> r == Success(Some(filterType) == serverType)
    ensures StartsWith(filterType, "vanilla") && serverType.Some? ==>
      r == Success(StartsWith(serverType.value, "vanilla") || serverType.value == "pvp")
    ensures r.Failure? <==> StartsWith(filterType, "vanilla") && serverType.None?
  {
    if filterType == "any" then Success(true)
    else if StartsWith(filterType, "vanilla") then
      if serverType.None? then Failure(ScraperError.AttributeError)
      else Success(StartsWith(serverType.value, "vanilla") || serverType.value == "pvp")
    else Success(Some(filterType) == serverType)
  }

  /** `_filter_server`: the criteria in the order they are tested; the first that fails rejects the server. */
  function Keep(server: Server, f: Filters): Result<bool, ScraperError>
  {
    if Truthy(f.database) && f.database != server.database then Success(false)
    else if Truthy(f.username) && f.username.value !in server.players.list then Success(false)
    else if !LocationMatch(f.location, server.location) then Success(false)
    else if f.mapId != "any" && Some(f.mapId) != server.serverMap.id then Success(false)
    else
      match TypeMatch(f.serverType, server.serverType)
      case Failure(e) => Failure(e)
      case Success(typeOk) =>
        if !typeOk then Success(false)
        else if f.mode != "any" && server.mode != Some(f.mode) then Success(false)
        else if f.dedicated == Some("yes") && !server.isDedicated then Success(false)
        else if f.ranked == Some("yes") && !server.isRanked then Success(false)
        else if f.notEmpty == Some("yes") && server.players.current == 0 then Success(false)
        else if f.notFull == Some("yes") && server.players.free == 0 then Success(false)
        else Success(true)
  }

  /** Every criterion, stated on its own. */
  predicate Satisfies(server: Server, f: Filters)
  {
    && (Truthy(f.database) ==> f.database == server.database)
    && (Truthy(f.username) ==> f.username.value in server.players.list)
    && LocationMatch(f.location, server.location)
    && (f.mapId != "any" ==> server.serverMap.id == Some(f.mapId))
    && TypeMatch(f.serverType, server.serverType) == Success(true)
    && (f.mode != "any" ==> server.mode == Some(f.mode))
    && (f.dedicated == Some("yes") ==> server.isDedicated)
    && (f.ranked == Some("yes") ==> server.isRanked)
    && (f.notEmpty == Some("yes") ==> server.players.current != 0)
    && (f.notFull == Some("yes") ==> server.players.free != 0)
  }

  /** A server is kept exactly when it satisfies every criterion. */
  lemma KeepSatisfies(server: Server, f: Filters)
    ensures Keep(server, f) == Success(true) <==> Satisfies(server, f)
  {
  }

  /** Without criteria every server is kept. */
  lemma KeepNoFilters(server: Server)
    ensures Keep(server, NoFilters) == Success(true)
  {
  }

  /** `servers[:limit]`, with Python's reading of a negative bound. */
  function Slice<T>(s: seq<T>, limit: int): (r: seq<T>)
    ensures limit >= 0 ==> r == s[..if limit < |s| then limit else |s|]
    ensures limit < 0 ==> r == s[..if |s| + limit > 0 then |s| + limit else 0]
  {
    if limit >= 0 then s[..if limit < |s| then limit else |s|]
    else s[..if |s| + limit > 0 then |s| + limit else 0]
  }

  /** `filter_servers`: the kept servers in list order, cut to `limit` when it is given and not zero. */
  function FilterServers(servers: seq<Server>, f: Filters): (r: Result<seq<Server>, ScraperError>)
  {
    if exists i :: 0 <= i < |servers| && Keep(servers[i], f).Failure? then Failure(ScraperError.AttributeError)
    else
      var kept := Seqs.Filter(servers, (s: Server) => Keep(s, f) == Success(true));
      if f.limit.Some? && f.limit.value != 0 then Success(Slice(kept, f.limit.value)) else Success(kept)
  }

  /**
   * Without a limit, the result holds exactly the servers that satisfy every
   * criterion, in list order; with one it is a prefix of that list. A
   * typeless server raises under a `vanilla*` type filter when it passes
   * the earlier criteria.
   */
  lemma FilterServersSatisfies(servers: seq<Server>, f: Filters)
    ensures FilterServers(servers, f).Failure? <==> exists i :: 0 <= i < |servers| && Keep(servers[i], f).Failure?
    ensures FilterServers(servers, f).Success? ==>
      var kept := Seqs.Filter(servers, (s: Server) => Satisfies(s, f));
      var r := FilterServers(servers, f).value;
      |r| <= |kept| && r == kept[..|r|] && ((f.limit.None? || f.limit.value == 0) ==> r == kept)
    ensures FilterServers(servers, f).Success? ==>
      forall s :: s in FilterServers(servers, f).value ==> s in servers && Satisfies(s, f)
  {
    FilterSame(servers, f);
  }

  lemma {:induction false} FilterSame(servers: seq<Server>, f: Filters)
    ensures Seqs.Filter(servers, (s: Server) => Keep(s, f) == Success(true)) == Seqs.Filter(servers, (s: Server) => Satisfies(s, f))
  {
    if servers != [] {
      KeepSatisfies(servers[0], f);
      FilterSame(servers[1..], f);
    }
  }

  /** A vanilla filter raises on a typeless server that passes the earlier criteria. */
  lemma TypelessServerRaises(server: Server)
    requires server.serverType.None?
    ensures Keep(server, NoFilters.(serverType := "vanilla")) == Failure(ScraperError.AttributeError)
  {
    assert StartsWith("vanilla", "vanilla");
  }

  // ---------------------------------------------------------------- get_counters

  function Current(s: Server): int { s.players.current }

  predicate Active(s: Server) { s.players.current > 0 }

  /** `get_counters`: players online, servers with players, servers in total. */
  function Counters(servers: seq<Server>): (r: (int, nat, nat))
    ensures r.1 <= r.2 && r.2 == |servers|
  {
    (Seqs.Sum(servers, Current), Seqs.Count(servers, Active), |servers|)
  }

  /** With counts clamped at zero, as `Server.load` does, no server is active when nobody plays, and there are at least as many players as active servers. */
  lemma {:induction false} CountersBound(servers: seq<Server>)
    requires forall i :: 0 <= i < |servers| ==> servers[i].players.current >= 0
    ensures Counters(servers).0 >= Counters(servers).1
    ensures Counters(servers).0 == 0 ==> Counters(servers).1 == 0
  {
    if servers != [] {
      CountersBound(servers[1..]);
    }
  }

  // ---------------------------------------------------------------- get_players

  /** The argument checks of `get_players`, in their order. */
  function PlayersArguments(database: string, start: int, limit: int): (r: Result<(), ScraperError>)
    ensures r.Success? <==> 0 < limit <= 100 && start >= 0 && database in ValidDatabases
    ensures limit > 100 ==> r == Failure(ScraperError.ValueError("limit cannot be greater than 100"))
  {
    if limit > 100 then Failure(ScraperError.ValueError("limit cannot be greater than 100"))
    else if limit <= 0 then Failure(ScraperError.ValueError("limit cannot be equal or lower than 0"))
    else if start < 0 then Failure(ScraperError.ValueError("start cannot be lower than 0"))
    else if database !in ValidDatabases then Failure(ScraperError.ValueError("database is invalid"))
    else Success(())
  }

  /** The end of `get_players`: the loaded players, or none when the searched player is not among them. */
  function PlayersOrNone(usernames: seq<string>, target: Option<string>): (r: seq<string>)
    ensures r == usernames || r == []
    ensures Truthy(target) && target.value !in usernames ==> r == []
    ensures r != [] ==> r == usernames && (Truthy(target) ==> target.value in r)
  {
    if Truthy(target) && target.value !in usernames then [] else usernames
  }

  // ---------------------------------------------------------------- get_current_server_of_player

  /** The last match of a scan over every listed player of every server, lower-cased. */
  function LastPlayerMatch(servers: seq<Server>, target: string): (r: Option<(string, Server)>)
    ensures r.Some? ==> (r.value.1 in servers && r.value.1.players.list != [] &&
      (exists p :: p in r.value.1.players.list && Lower(p) == r.value.0) && Contains(r.value.0, target))
  {
    if servers == [] then None
    else
      var n := |servers| - 1;
      var here := LastInList(servers[n].players.list, target);
      if servers[n].players.list != [] && here.Some? then Some((here.value, servers[n]))
      else
        var prev := LastPlayerMatch(servers[..n], target);
        assert prev.Some? ==> prev.value.1 in servers[..n];
        prev
  }

  /** The last player of the list whose lower-cased name contains `target`, lower-cased. */
  function LastInList(players: seq<string>, target: string): (r: Option<string>)
    ensures r.Some? ==> Contains(r.value, target) && exists p :: p in players && Lower(p) == r.value
    ensures r.None? <==> forall p :: p in players ==> !Contains(Lower(p), target)
  {
    if players == [] then None
    else
      var n := |players| - 1;
      if Contains(Lower(players[n]), target) then Some(Lower(players[n]))
      else
        assert forall p :: p in players ==> p in players[..n] || p == players[n];
        LastInList(players[..n], target)
  }

  /** `get_current_server_of_player`: the last listed player whose name contains the target, ignoring case, and that player's server; the name is upper-cased. */
  method CurrentServerOfPlayer(servers: seq<Server>, targetUsername: string) returns (realUsername: string, foundServer: Option<Server>)
    ensures var m := LastPlayerMatch(servers, Lower(targetUsername));
      && (m.Some? ==> realUsername == Upper(m.value.0) && foundServer == Some(m.value.1))
      && (m.None? ==> realUsername == Upper(Lower(targetUsername)) && foundServer.None?)
  {
    var target := Lower(targetUsername);
    var lowered := target;
    foundServer := None;
    var i := 0;
    while i < |servers|
      invariant 0 <= i <= |servers|
      invariant var m := LastPlayerMatch(servers[..i], target);
        && (m.Some? ==> lowered == m.value.0 && foundServer == Some(m.value.1))
        && (m.None? ==> lowered == target && foundServer.None?)
    {
      LastPlayerMatchStep(servers, target, i);
      if servers[i].players.list != [] {
        lowered, foundServer := ScanPlayers(servers[i], target, lowered, foundServer);
      }
      i := i + 1;
    }
    assert servers[..|servers|] == servers;
    realUsername := Upper(lowered);
  }

  /** One more server: its last matching player, when it has one, replaces the match so far. */
  lemma LastPlayerMatchStep(servers: seq<Server>, target: string, i: nat)
    requires i < |servers|
    ensures var here := LastInList(servers[i].players.list, target);
      LastPlayerMatch(servers[..i + 1], target) ==
        if servers[i].players.list != [] && here.Some? then Some((here.value, servers[i])) else LastPlayerMatch(servers[..i], target)
  {
    assert servers[..i + 1][..i] == servers[..i];
  }

  /** The inner loop of `get_current_server_of_player` over the lower-cased players of one server. */
  method ScanPlayers(server: Server, target: string, lowered0: string, found0: Option<Server>)
      returns (lowered: string, found: Option<Server>)
    ensures var h := LastInList(server.players.list, target);
      && (h.Some? ==> lowered == h.value && found == Some(server))
      && (h.None? ==> lowered == lowered0 && found == found0)
  {
    var players := server.players.list;
    var playersList := LowerAll(players);
    lowered, found := lowered0, found0;
    var j := 0;
    while j < |playersList|
      invariant 0 <= j <= |playersList|
      invariant var h := LastInList(players[..j], target);
        && (h.Some? ==> lowered == h.value && found == Some(server))
        && (h.None? ==> lowered == lowered0 && found == found0)
    {
      assert players[..j + 1][..j] == players[..j];
      if Contains(playersList[j], target) {
        lowered := playersList[j];
        found := Some(server);
      }
      j := j + 1;
    }
    assert players[..|playersList|] == players;
  }

  /** `[player.lower() for player in players]`. */
  function LowerAll(players: seq<string>): (r: seq<string>)
    ensures |r| == |players| && forall i :: 0 <= i < |players| ==> r[i] == Lower(players[i])
  {
    seq(|players|, i requires 0 <= i < |players| => Lower(players[i]))
  }

  /** Nobody matches: the target itself comes back, upper-cased, with no server. */
  lemma NoPlayerMatch(servers: seq<Server>, target: string)
    requires forall i :: 0 <= i < |servers| ==> forall p :: p in servers[i].players.list ==> !Contains(Lower(p), target)
    ensures LastPlayerMatch(servers, target).None?
  {
    if servers != [] {
      var n := |servers| - 1;
      assert forall i :: 0 <= i < n ==> servers[..n][i] == servers[i];
      NoPlayerMatch(servers[..n], target);
    }
  }
}
