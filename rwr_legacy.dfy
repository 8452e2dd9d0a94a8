/**
 * `rwr.py` and `rwr_scrapers.py`: the two earlier scrapers of the public
 * server and player lists. Both share the ranks table, the rank
 * progression rules, the server search and the players counters; `rwr.py`
 * flags ranked servers by `ip:port` and computes radio-call unlocks,
 * `rwr_scrapers.py` flags official servers by IP alone.
 *
 * Their `parse_time` uses the very pattern of `rwr/utils.py`, so the model
 * of that one, `RwrUtils.ParseTime`, stands for all three. The HTML nodes
 * a server or player is loaded from are inputs: a server is its address
 * and its players.
 */
module RwrLegacy {
  import opened Wrappers
  import opened Decimal
  import opened RwrServer
  import opened RwrPlayer

  // ---------------------------------------------------------------- ranks

  /**
   * `RANKS` of both files: ranks `0` to `16` with their name and XP. The
   * dictionary's keys are exactly these ids, so it is a sequence indexed
   * by rank id.
   */
  const Ranks: seq<RankInfo> := [
    RankInfo("Private", 0),
    RankInfo("Private 1st Class", 500),
    RankInfo("Corporal", 1000),
    RankInfo("Sergeant", 2000),
    RankInfo("Staff Sergeant", 3000),
    RankInfo("Staff Sergeant 1st Class", 4000),
    RankInfo("2nd Lieutenant", 6000),
    RankInfo("Lieutenant", 8000),
    RankInfo("Captain", 10000),
    RankInfo("Major", 12000),
    RankInfo("Lieutenant Colonel", 14000),
    RankInfo("Colonel", 20000),
    RankInfo("Brigadier General", 50000),
    RankInfo("Major General", 100000),
    RankInfo("Lieutenant General", 200000),
    RankInfo("General", 500000),
    RankInfo("General of the Army", 1000000)
  ]

  /** `id in RANKS`. */
  predicate IsRankId(id: int)
  {
    0 <= id < |Ranks|
  }

  /**
   * `Player.next_rank`: `None` without a rank id, `False` at rank 16,
   * `None` when the id above is not in `RANKS`, and otherwise that rank
   * tagged with its id.
   */
  function NextRankOf(rankId: Option<int>): (r: NextRank)
    ensures rankId.None? ==> r == NoNextRank
    ensures rankId == Some(HighestRankId) ==> r == HighestRank
    ensures r.Next? ==> rankId.Some? && IsRankId(rankId.value + 1)
    ensures r.Next? ==>
      r.rank == PlayerRank(Some(rankId.value + 1), Some(Ranks[rankId.value + 1].name), Ranks[rankId.value + 1].xp)
  {
    if rankId.None? then NoNextRank
    else if rankId.value == HighestRankId then HighestRank
    else if !IsRankId(rankId.value + 1) then NoNextRank
    else
      var next := Ranks[rankId.value + 1];
      Next(PlayerRank(Some(rankId.value + 1), Some(next.name), next.xp))
  }

  /** Exactly the ids `-1` to `15` have a next rank; `16` is the highest and every other id has none. */
  lemma NextRankExists(id: int)
    ensures NextRankOf(Some(id)).Next? <==> -1 <= id < HighestRankId
    ensures NextRankOf(Some(id)) == HighestRank <==> id == HighestRankId
  {
  }

  /** The ranks grow in XP, so a next rank always asks for more XP than the rank below it. */
  lemma RanksAscending(id: int)
    requires 0 <= id < HighestRankId
    ensures NextRankOf(Some(id)).rank.xp > Ranks[id].xp
  {
    assert forall i :: 0 <= i < |Ranks| - 1 ==> Ranks[i].xp < Ranks[i + 1].xp;
  }

  /**
   * `Player.xp_to_next_rank`: a player below rank 16 whose XP lies in its
   * rank's range still needs a positive amount, that amount reaches the
   * next rank exactly, and the highest rank needs nothing.
   */
  lemma XpToNextRankOfRank(id: int, xp: int)
    requires 0 <= id < HighestRankId && Ranks[id].xp <= xp < Ranks[id + 1].xp
    ensures XpToNextRank(NextRankOf(Some(id)), xp).Some?
    ensures 0 < XpToNextRank(NextRankOf(Some(id)), xp).value
    ensures xp + XpToNextRank(NextRankOf(Some(id)), xp).value == Ranks[id + 1].xp
  {
  }

  lemma XpToHighestRank(xp: int)
    ensures XpToNextRank(NextRankOf(Some(HighestRankId)), xp) == None
    ensures XpToNextRank(NextRankOf(None), xp) == None
  {
  }

  // ---------------------------------------------------------------- unlocks (rwr.py)

  /**
   * What `Player.unlocks` returns: the radio calls collected, and the other
   * categories and the squad mates at the values `ret` starts with, since
   * the loop fills in nothing else.
   */
  datatype LegacyUnlocks = LegacyUnlocks(radioCalls: seq<Unlockable>, weapons: seq<Unlockable>,
                                         equipment: seq<Unlockable>, throwables: seq<Unlockable>, squadMates: nat)

  /** The radio calls of the thresholds before the first one above `xp`: where the loop's `break` stops it. */
  function RadioCallsBefore(table: UnlockTable, xp: int): seq<Unlockable>
  {
    if table == [] || table[0].0 > xp then []
    else Items(table[0].1, "radio_calls") + RadioCallsBefore(table[1..], xp)
  }

  /** The radio calls of every threshold at most `xp`, wherever it stands in the table. */
  function RadioCallsUpTo(table: UnlockTable, xp: int): seq<Unlockable>
  {
    if table == [] then []
    else (if table[0].0 <= xp then Items(table[0].1, "radio_calls") else []) + RadioCallsUpTo(table[1..], xp)
  }

  /** `Player.unlocks`: walks the thresholds in order and stops at the first one above the player's XP. */
  method Unlocks(table: UnlockTable, xp: int) returns (r: LegacyUnlocks)
    ensures r.radioCalls == RadioCallsBefore(table, xp)
    ensures r.weapons == [] && r.equipment == [] && r.throwables == [] && r.squadMates == 0
  {
    var radioCalls: seq<Unlockable> := [];
    var i := 0;
    while i < |table|
      invariant 0 <= i <= |table|
      invariant radioCalls + RadioCallsBefore(table[i..], xp) == RadioCallsBefore(table, xp)
    {
      var (requiredXp, unlocks) := table[i];
      if requiredXp > xp {
        break;
      }
      assert table[i..][1..] == table[i + 1..];
      if "radio_calls" in unlocks {
        radioCalls := radioCalls + unlocks["radio_calls"];
      }
      i := i + 1;
    }
    return LegacyUnlocks(radioCalls, [], [], [], 0);
  }

  /** Thresholds listed from the lowest up, as the `UNLOCKABLES` ordered dictionary is. */
  predicate AscendingThresholds(table: UnlockTable)
  {
    forall i, j :: 0 <= i < j < |table| ==> table[i].0 <= table[j].0
  }

  /** In an ascending table, stopping at the first threshold above `xp` collects every threshold at most `xp`. */
  lemma {:induction false} RadioCallsSorted(table: UnlockTable, xp: int)
    requires AscendingThresholds(table)
    ensures RadioCallsBefore(table, xp) == RadioCallsUpTo(table, xp)
  {
    if table != [] {
      assert AscendingThresholds(table[1..]);
      RadioCallsSorted(table[1..], xp);
      if table[0].0 > xp {
        NoneUpTo(table[1..], xp);
      }
    }
  }

  lemma {:induction false} NoneUpTo(table: UnlockTable, xp: int)
    requires forall i :: 0 <= i < |table| ==> table[i].0 > xp
    ensures RadioCallsUpTo(table, xp) == []
  {
    if table != [] {
      NoneUpTo(table[1..], xp);
    }
  }

  /** More XP never loses a radio call: the calls for less XP are a prefix of the calls for more. */
  lemma {:induction false} RadioCallsMonotone(table: UnlockTable, a: int, b: int)
    requires a <= b
    ensures RadioCallsBefore(table, a) <= RadioCallsBefore(table, b)
  {
    if table != [] && table[0].0 <= a {
      RadioCallsMonotone(table[1..], a, b);
    }
  }

  // ---------------------------------------------------------------- servers

  /** A server of the legacy lists: its address and its players (`ServerPlayers`). */
  datatype LegacyServer = LegacyServer(ip: string, port: int, ipAndPort: string, players: ServerPlayers)

  /** `'{ip}:{port}'.format(...)`. */
  function IpAndPort(ip: string, port: int): string
  {
    ip + ":" + IntToString(port)
  }

  /** A leading `\d+`: its value and the text after it. */
  function LeadingNumber(s: string): (r: Option<(nat, string)>)
    ensures r.Some? ==> |r.value.1| < |s|
  {
    var n := DigitPrefix(s);
    if n >= 1 then Some((DigitsValue(s[..n]), s[n..])) else None
  }

  /** A digit run followed by anything but a digit is read whole. */
  lemma LeadingNumberOf(d: string, rest: string)
    requires |d| >= 1 && AllDigits(d)
    requires rest == [] || !IsDigit(rest[0])
    ensures LeadingNumber(d + rest) == Some((DigitsValue(d), rest))
  {
    DigitPrefixOf(d, rest);
    assert (d + rest)[..|d|] == d;
    assert (d + rest)[|d|..] == rest;
  }

  /** `_players_count_regex.match(text)`: two digit runs around a `/` at the start of the text. */
  function CountPattern(text: string): (r: Option<(nat, nat)>)
  {
    match LeadingNumber(text)
    case None => None
    case Some((current, tail)) =>
      if tail != [] && tail[0] == '/' then
        match LeadingNumber(tail[1..])
        case None => None
        case Some((max, _)) => Some((current, max))
      else None
  }

  /**
   * The player counts of `Server.load`: the two numbers of the pattern, and
   * free slots as their difference, without clamping; the class defaults
   * `0`, `0`, `0` when the text does not match.
   */
  function PlayerCounts(text: string): (p: ServerPlayers)
    ensures p.current >= 0 && p.max >= 0 && p.free == p.max - p.current && p.list == []
    ensures CountPattern(text).None? ==> p.current == 0 && p.max == 0
    ensures CountPattern(text).Some? ==> p.current == CountPattern(text).value.0 && p.max == CountPattern(text).value.1
  {
    match CountPattern(text)
    case None => ServerPlayers(0, 0, 0, [])
    case Some((current, max)) => ServerPlayers(current, max, max - current, [])
  }

  /** The text `"<current>/<max>"`, followed by anything but a digit, reads back as those two counts. */
  lemma PlayerCountsOf(current: nat, max: nat, rest: string)
    requires rest == [] || !IsDigit(rest[0])
    ensures PlayerCounts(NatToString(current) + "/" + NatToString(max) + rest) == ServerPlayers(current, max, max - current, [])
  {
    CountPatternOf(NatToString(current), NatToString(max), rest);
    NatToStringValue(current);
    NatToStringValue(max);
  }

  lemma CountPatternOf(c: string, m: string, rest: string)
    requires |c| >= 1 && AllDigits(c) && |m| >= 1 && AllDigits(m)
    requires rest == [] || !IsDigit(rest[0])
    ensures CountPattern(c + "/" + m + rest) == Some((DigitsValue(c), DigitsValue(m)))
  {
    var tail := "/" + (m + rest);
    assert tail[1..] == m + rest;
    Regroup(c, "/", m, rest);
    LeadingNumberOf(c, tail);
    LeadingNumberOf(m, rest);
    var text := c + "/" + m + rest;
    assert LeadingNumber(text) == Some((DigitsValue(c), tail));
    assert LeadingNumber(tail[1..]) == Some((DigitsValue(m), rest));
  }

  lemma Regroup(a: string, b: string, c: string, d: string)
    ensures a + b + c + d == a + (b + (c + d))
  {
  }

  /** A full server reports more players than slots as negative free slots: nothing is clamped. */
  lemma PlayerCountsFree(text: string)
    requires CountPattern(text).Some?
    ensures PlayerCounts(text).free < 0 <==> CountPattern(text).value.0 > CountPattern(text).value.1
  {
  }

  /** `server.ip == ip and server.port == port`. */
  predicate AtAddress(server: LegacyServer, ip: string, port: int)
  {
    server.ip == ip && server.port == port
  }

  /** The index of the first server at the address. */
  function FirstAtAddress(servers: seq<LegacyServer>, ip: string, port: int): (r: Option<nat>)
    ensures r.Some? ==> r.value < |servers| && AtAddress(servers[r.value], ip, port)
    ensures r.Some? ==> forall j :: 0 <= j < r.value ==> !AtAddress(servers[j], ip, port)
    ensures r.None? <==> forall j :: 0 <= j < |servers| ==> !AtAddress(servers[j], ip, port)
  {
    if servers == [] then None
    else if AtAddress(servers[0], ip, port) then Some(0)
    else
      match FirstAtAddress(servers[1..], ip, port)
      case None =>
        assert forall j :: 1 <= j < |servers| ==> servers[j] == servers[1..][j - 1];
        None
      case Some(k) =>
        assert forall j :: 1 <= j <= k ==> servers[j] == servers[1..][j - 1];
        Some(k + 1)
  }

  /** `DataScraper.search_server`: the first server at the address, `None` when there is none. */
  method SearchServer(servers: seq<LegacyServer>, ip: string, port: int) returns (r: Option<LegacyServer>)
    ensures r.None? <==> FirstAtAddress(servers, ip, port).None?
    ensures r.Some? ==> r.value == servers[FirstAtAddress(servers, ip, port).value]
  {
    for i := 0 to |servers|
      invariant forall j :: 0 <= j < i ==> !AtAddress(servers[j], ip, port)
    {
      if servers[i].ip == ip && servers[i].port == port {
        return Some(servers[i]);
      }
    }
    return None;
  }

  function Current(server: LegacyServer): int { server.players.current }

  predicate NonEmpty(server: LegacyServer) { server.players.current > 0 }

  /** `get_players_on_servers_counts`: players on all servers, and how many servers have any. */
  function PlayersOnServersCounts(servers: seq<LegacyServer>): (r: (int, nat))
    ensures r.1 <= |servers|
  {
    (Seqs.Sum(servers, Current), Seqs.Count(servers, NonEmpty))
  }

  /** With counts read by `Server.load` (never negative), there are at least as many players as non-empty servers, and no players means no non-empty server. */
  lemma {:induction false} CountsBound(servers: seq<LegacyServer>)
    requires forall i :: 0 <= i < |servers| ==> servers[i].players.current >= 0
    ensures PlayersOnServersCounts(servers).0 >= PlayersOnServersCounts(servers).1
    ensures PlayersOnServersCounts(servers).0 == 0 <==> PlayersOnServersCounts(servers).1 == 0
  {
    if servers != [] {
      CountsBound(servers[1..]);
    }
  }

  /** The player lists of the servers, one after the other (empty lists add nothing). */
  function Listed(servers: seq<LegacyServer>): seq<string>
  {
    if servers == [] then [] else Listed(servers[..|servers| - 1]) + servers[|servers| - 1].players.list
  }

  lemma {:induction false} ListedMember(servers: seq<LegacyServer>, username: string)
    ensures username in Listed(servers) <==> exists k :: 0 <= k < |servers| && username in servers[k].players.list
  {
    if servers != [] {
      var n := |servers| - 1;
      ListedMember(servers[..n], username);
      if exists k :: 0 <= k < n && username in servers[..n][k].players.list {
        var k :| 0 <= k < n && username in servers[..n][k].players.list;
        assert servers[k] == servers[..n][k];
      }
      if exists k :: 0 <= k < n && username in servers[k].players.list {
        var k :| 0 <= k < n && username in servers[k].players.list;
        assert servers[..n][k] == servers[k];
      }
    }
  }

  /**
   * `DataScraper.get_all_players`: the usernames of every non-empty player
   * list, without repetition. `list(set(ret))` has no defined order, so
   * the result is the set itself.
   */
  method AllPlayers(servers: seq<LegacyServer>) returns (r: set<string>)
    ensures forall u :: u in r <==> exists k :: 0 <= k < |servers| && u in servers[k].players.list
  {
    var ret: seq<string> := [];
    for i := 0 to |servers|
      invariant ret == Listed(servers[..i])
    {
      assert servers[..i + 1][..i] == servers[..i];
      if servers[i].players.list == [] {
        continue;
      }
      ret := ret + servers[i].players.list;
    }
    assert servers[..|servers|] == servers;
    r := set u | u in ret;
    forall u
      ensures u in r <==> exists k :: 0 <= k < |servers| && u in servers[k].players.list
    {
      ListedMember(servers, u);
    }
  }

  // ---------------------------------------------------------------- ranked and official servers

  /**
   * `RANKED_SERVERS` of `rwr.py`, each `ip:port` text written as its IP
   * and port parts.
   */
  const RankedEndpoints: seq<(string, string)> := [
    ("45.32.63.85", "1234"), ("45.32.63.85", "1235"),
    ("162.248.88.126", "1236"), ("162.248.88.126", "1234"), ("199.217.117.133", "1234"),
    ("31.186.250.67", "1234"), ("31.186.250.67", "1235"), ("31.186.250.67", "2240"),
    ("103.42.224.189", "1234")
  ]

  function Endpoint(e: (string, string)): string
  {
    e.0 + ":" + e.1
  }

  /** `ret.ip_and_port in RANKED_SERVERS` (`rwr.py`). */
  predicate IsRanked(ipAndPort: string)
  {
    exists k :: 0 <= k < |RankedEndpoints| && Endpoint(RankedEndpoints[k]) == ipAndPort
  }

  /** `OFFICIAL_SERVERS` of `rwr_scrapers.py` (one IP is listed twice). */
  const OfficialServers: seq<string> := [
    "31.186.250.67", "162.248.88.126", "45.32.63.85", "31.186.250.67", "199.217.117.133", "103.42.224.189"
  ]

  /** `ret.ip in OFFICIAL_SERVERS` (`rwr_scrapers.py`). */
  predicate IsOfficial(ip: string)
  {
    ip in OfficialServers
  }

  /** Two texts split around a colon that neither tail holds are the same split. */
  lemma ColonSplit(a: string, b: string, c: string, d: string)
    requires a + ":" + b == c + ":" + d
    requires ':' !in b && ':' !in d
    ensures a == c && b == d
  {
    if |a| < |c| {
      ColonInTail(a, b, c, d);
      assert false;
    } else if |a| > |c| {
      ColonInTail(c, d, a, b);
      assert false;
    }
    var s := a + ":" + b;
    assert a == s[..|a|] == c;
    assert b == s[|a| + 1..] == d;
  }

  /** When the left split ends earlier, the colon of the right split falls in the left tail. */
  lemma ColonInTail(a: string, b: string, c: string, d: string)
    requires a + ":" + b == c + ":" + d
    requires |a| < |c|
    ensures ':' in b
  {
    var s := c + ":" + d;
    assert s[|c|] == ':';
    assert b[|c| - |a| - 1] == (a + ":" + b)[|c|];
  }

  lemma PortTextNoColon(port: int)
    ensures ':' !in IntToString(port)
  {
    var r := IntToString(port);
    if port < 0 {
      assert r == "-" + NatToString(-port);
      assert forall i :: 1 <= i < |r| ==> r[i] == NatToString(-port)[i - 1];
    }
    assert forall i :: 0 <= i < |r| ==> r[i] != ':';
  }

  /**
   * Every server `rwr.py` counts as ranked runs on an IP that
   * `rwr_scrapers.py` counts as official: the two flags agree on the
   * official servers.
   */
  lemma RankedIsOfficial(ip: string, port: int)
    requires IsRanked(IpAndPort(ip, port))
    ensures IsOfficial(ip)
  {
    var k :| 0 <= k < |RankedEndpoints| && Endpoint(RankedEndpoints[k]) == IpAndPort(ip, port);
    assert forall j :: 0 <= j < |RankedEndpoints| ==> ':' !in RankedEndpoints[j].1 && RankedEndpoints[j].0 in OfficialServers;
    PortTextNoColon(port);
    ColonSplit(ip, IntToString(port), RankedEndpoints[k].0, RankedEndpoints[k].1);
  }

  /** An official IP on another port is not ranked: being ranked depends on the port as well. */
  lemma OfficialNotRanked()
    ensures IsOfficial("45.32.63.85") && !IsRanked(IpAndPort("45.32.63.85", 1236))
  {
    var target := IpAndPort("45.32.63.85", 1236);
    assert IntToString(1236) == "1236";
    assert target == "45.32.63.85:1236" && |target| == 16 && target[15] == '6';
    forall j | 0 <= j < |RankedEndpoints|
      ensures Endpoint(RankedEndpoints[j]) != target
    {
      var e := Endpoint(RankedEndpoints[j]);
      assert |e| != 16 || e[15] != '6';
    }
  }

  // ---------------------------------------------------------------- players

  /**
   * The player list of a legacy server record. The legacy
   * `Player.set_playing_on_server` is the same loop as the current one:
   * it is `RwrPlayer.Player<LegacyServer>.SetPlayingOnServer` with this
   * projection, and its result `RwrPlayer.FirstListing`.
   */
  function LegacyPlayers(server: LegacyServer): seq<string>
  {
    server.players.list
  }

  /** A player is found playing exactly when `get_all_players` gathers the player's name. */
  lemma PlayingIffGathered(servers: seq<LegacyServer>, username: string)
    ensures FirstListing(servers, LegacyPlayers, username).Some? <==> username in Listed(servers)
  {
    ListedMember(servers, username);
    if username in Listed(servers) {
      var k :| 0 <= k < |servers| && username in servers[k].players.list;
      assert username in LegacyPlayers(servers[k]);
    }
  }
}
