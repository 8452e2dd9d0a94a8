/**
 * `rwr/server.py`: how `Server.load` derives a server's fields from the
 * text of its `<server>` node in the XML server list and from the players
 * cell of its row in the HTML server list, and `Server.get_database`.
 *
 * The geolocation of the server's IP, its slug and its URLs come from
 * libraries outside this model; the location is an input of `Load`.
 */
module RwrServer {
  import opened Wrappers
  import opened Text
  import opened Decimal
  import opened Sorting
  import opened RwrConstants
  import opened RwrUtils

  /**
   * The text of the child elements of one `<server>` node. An empty
   * element's `.text` is `None`: for the four integers and the mode that is
   * `None` here, and for `comment` and `url`, which are only tested for
   * truth, the empty text stands for it.
   */
  datatype ServerNode = ServerNode(
    name: string, address: string, port: Option<string>, mapId: string, bots: Option<string>,
    currentPlayers: Option<string>, version: string, dedicated: string, comment: string,
    url: string, maxPlayers: Option<string>, mode: Option<string>, realm: string)

  /**
   * `ServerMap`. `nameDisplay` is `None` when `Load` never assigned it:
   * `ServerMap` has no class-level `name_display`, so reading it then raises.
   */
  datatype ServerMap = ServerMap(id: Option<string>, name: Option<string>, hasMinimap: bool,
                                 hasPreview: bool, nameDisplay: Option<string>)

  datatype ServerPlayers = ServerPlayers(current: int, max: int, free: int, list: seq<string>)

  datatype ServerLocation = ServerLocation(cityName: Option<string>, countryCode: Option<string>,
                                           countryName: Option<string>, continentCode: Option<string>,
                                           continentName: Option<string>)

  const NoLocation := ServerLocation(None, None, None, None, None)

  datatype Server = Server(
    name: string, ip: string, port: int, ipAndPort: string,
    serverType: Option<string>, typeName: string, serverMap: ServerMap, bots: int,
    players: ServerPlayers, version: string, isDedicated: bool,
    comment: Option<string>, website: Option<string>,
    mode: Option<string>, modeName: string, modeNameLong: string,
    realm: string, isRanked: bool, database: Option<string>, databaseName: Option<string>,
    location: ServerLocation, nameDisplay: string, summary: string)

  /**
   * The exceptions `Server.load` can raise: `int()` on a non-integer text
   * or on `None`, or reading an unset attribute.
   */
  datatype LoadError = ValueError | TypeError | AttributeError

  /** The prefix of the display name of a ranked server: a star emoji and a space. */
  const RankedMark: string := "\U{2B50}\U{FE0F} "

  /** Python `str()` of an optional string, as `format` renders it. */
  function PyStr(s: Option<string>): string
  {
    match s
    case None => "None"
    case Some(v) => v
  }

  /** The realms of the players-list databases. */
  function Realms(): (r: seq<string>)
    ensures |r| == |PlayersListDatabases|
    ensures forall i :: 0 <= i < |r| ==> r[i] == PlayersListDatabases[i].realm
  {
    seq(|PlayersListDatabases|, i requires 0 <= i < |PlayersListDatabases| => PlayersListDatabases[i].realm)
  }

  /** `is_ranked`: the realm belongs to one of the players-list databases. */
  predicate IsRanked(realm: string)
  {
    realm in Realms()
  }

  /** `get_database`: the key of the first database whose realm is the server's, if the server is ranked. */
  function GetDatabase(isRanked: bool, realm: string): (r: Option<string>)
    ensures r.Some? ==> isRanked && exists d :: d in PlayersListDatabases && d.key == r.value && d.realm == realm
    ensures isRanked && IsRanked(realm) ==> r.Some?
    ensures !isRanked ==> r.None?
  {
    if !isRanked then None
    else if PlayersListDatabases[0].realm == realm then Some(PlayersListDatabases[0].key)
    else if PlayersListDatabases[1].realm == realm then Some(PlayersListDatabases[1].key)
    else None
  }

  /** A server is ranked exactly when `get_database` finds its database, and that database has a name. */
  lemma RankedHasDatabase(realm: string)
    ensures IsRanked(realm) <==> GetDatabase(IsRanked(realm), realm).Some?
    ensures IsRanked(realm) ==> DatabaseName(GetDatabase(IsRanked(realm), realm)).Some?
  {
    var r := GetDatabase(IsRanked(realm), realm);
    if IsRanked(realm) {
      assert r.value in ValidDatabases;
    }
  }

  /** The entries of a non-empty players cell: split on `','`, each stripped. */
  function PlayerNames(text: string): (r: seq<string>)
    ensures |r| == |Split(text, ',')|
    ensures forall i :: 0 <= i < |r| ==> r[i] == Strip(Split(text, ',')[i])
  {
    var parts := Split(text, ',');
    seq(|parts|, i requires 0 <= i < |parts| => Strip(parts[i]))
  }

  /** `players.list`: the players cell's names, sorted; the class default `[]` when there is no row or its cell is empty. */
  function PlayersList(cell: Option<string>): (r: seq<string>)
    ensures (cell.None? || cell.value == []) ==> r == []
    ensures cell.Some? && cell.value != [] ==> multiset(r) == multiset(PlayerNames(cell.value)) && Sorted(r)
  {
    if cell.Some? && cell.value != [] then SortStrings(PlayerNames(cell.value)) else []
  }

  /** A player list read from a cell does not depend on the order the names appear in the cell. */
  lemma PlayersListOrderIndependent(a: string, b: string)
    requires a != [] && b != []
    requires multiset(PlayerNames(a)) == multiset(PlayerNames(b))
    ensures PlayersList(Some(a)) == PlayersList(Some(b))
  {
    SortStringsOrderIndependent(PlayerNames(a), PlayerNames(b));
  }

  /** The stripped text of an optional element, `None` when it is empty. */
  function OptionalText(text: string): (r: Option<string>)
    ensures r.None? <==> text == []
    ensures r.Some? ==> r.value == Strip(text)
  {
    if text == [] then None else Some(Strip(text))
  }

  /** `ServerPlayers` from the two counts: the current count is clamped at 0 and the free slots are what remains. */
  function Counts(current: int, max: int): (p: ServerPlayers)
    ensures p.current >= 0 && p.max == max && p.current + p.free == max
    ensures current >= 0 ==> p.current == current
    ensures current < 0 ==> p.current == 0
    ensures p.list == []
  {
    var c := if current < 0 then 0 else current;
    ServerPlayers(c, max, max - c, [])
  }

  /** A server with at least as many slots as players never reports negative free slots. */
  lemma CountsFreeNonNegative(current: int, max: int)
    requires current <= max && 0 <= max
    ensures Counts(current, max).free >= 0
  {
  }

  /** The map of a server: its name and flags when the game type and the map id are known, `ServerMap()`'s class defaults otherwise. */
  function MapOf(maps: MapTable, serverType: Option<string>, mapId: Option<string>): (m: ServerMap)
    ensures m.id == mapId
    ensures m.nameDisplay.Some? <==> serverType.Some? && mapId.Some? && GetMap(maps, serverType.value, mapId.value).Some?
    ensures m.nameDisplay.None? ==> m.name.None? && !m.hasMinimap && !m.hasPreview
  {
    if serverType.Some? && mapId.Some? && GetMap(maps, serverType.value, mapId.value).Some? then
      var info := GetMap(maps, serverType.value, mapId.value).value.info;
      var display := if info.name != [] then info.name else mapId.value;
      ServerMap(mapId, Some(info.name), info.hasMinimap, info.hasPreview, Some(display))
    else
      ServerMap(mapId, None, false, false, None)
  }

  /** The game type and map id of a node's map path, once `'//'` has been collapsed to `'/'`. */
  function NodePath(mapId: string): (Option<string>, Option<string>)
  {
    ParseMapPath(ReplaceAll(mapId, "//", "/"))
  }

  /** The map of a server whose map path is `mapId`. */
  function NodeMap(mapId: string, maps: MapTable): ServerMap
  {
    MapOf(maps, NodePath(mapId).0, NodePath(mapId).1)
  }

  /** The summary line: game type name, map display name, current and maximum players. */
  function Summary(typeName: string, mapName: string, current: int, max: int): string
  {
    typeName + " - " + mapName + " - " + IntToString(current) + "/" + IntToString(max)
  }

  /**
   * `Server.load` as written: `summary` reads `map.name_display`, which is
   * only assigned when the map is known, so an unknown map raises.
   */
  method LoadAsWritten(node: ServerNode, playersCell: Option<string>, location: ServerLocation, maps: MapTable)
    returns (r: Result<Server, LoadError>)
    ensures r.Failure? <==> !IntsParse(node) || NodeMap(node.mapId, maps).nameDisplay.None?
    ensures r.Failure? ==> r.error == (if IntsParse(node) then AttributeError else IntsError(node))
    ensures r.Success? ==> r.value.serverMap.nameDisplay.Some?
  {
    r := Load(node, playersCell, location, maps);
    if r.Success? && r.value.serverMap.nameDisplay.None? {
      r := Failure(AttributeError);
    }
  }

  /** `int(node.text)`: `TypeError` for an empty element, `ValueError` for a text that is no integer literal. */
  function IntOf(text: Option<string>): (r: Result<int, LoadError>)
    ensures r.Success? <==> text.Some? && ParseInt(text.value).Some?
    ensures r.Success? ==> r.value == ParseInt(text.value).value
    ensures r.Failure? ==> r.error == (if text.None? then TypeError else ValueError)
  {
    match text
    case None => Failure(TypeError)
    case Some(t) => if ParseInt(t).Some? then Success(ParseInt(t).value) else Failure(ValueError)
  }

  /** Every integer field of the node is an integer literal. */
  predicate IntsParse(node: ServerNode)
  {
    IntOf(node.port).Success? && IntOf(node.bots).Success?
    && IntOf(node.currentPlayers).Success? && IntOf(node.maxPlayers).Success?
  }

  /** The exception of the first integer field that does not parse, in the order `load` reads them. */
  function IntsError(node: ServerNode): (e: LoadError)
    requires !IntsParse(node)
    ensures e != AttributeError
  {
    if IntOf(node.port).Failure? then IntOf(node.port).error
    else if IntOf(node.bots).Failure? then IntOf(node.bots).error
    else if IntOf(node.currentPlayers).Failure? then IntOf(node.currentPlayers).error
    else IntOf(node.maxPlayers).error
  }

  /** The display name of a map: its name when it has one, otherwise its id. */
  function MapDisplay(m: ServerMap): (r: Option<string>)
    ensures m.nameDisplay.Some? ==> r == m.nameDisplay
    ensures m.nameDisplay.None? ==> r == m.id
  {
    if m.nameDisplay.Some? then m.nameDisplay else m.id
  }

  /** The fields of a loaded server once its integers have been parsed. */
  function Build(node: ServerNode, port: int, bots: int, current: int, max: int, serverType: Option<string>,
                 m: ServerMap, playersCell: Option<string>, location: ServerLocation): (s: Server)
    ensures s.serverMap == m
    ensures s.ipAndPort == node.address + ":" + IntToString(port)
    ensures s.players.current >= 0 && s.players.current + s.players.free == s.players.max
    ensures s.isDedicated <==> node.dedicated == "1"
    ensures s.isRanked <==> IsRanked(node.realm)
    ensures s.database.Some? <==> s.isRanked
  {
    var ranked := IsRanked(node.realm);
    var database := GetDatabase(ranked, node.realm);
    var counts := Counts(current, max);
    var name := Strip(node.name);
    var typeName := TypeName(serverType);
    RankedHasDatabase(node.realm);
    Server(
      name, node.address, port, node.address + ":" + IntToString(port),
      serverType, typeName, m, bots,
      counts.(list := PlayersList(playersCell)),
      node.version, node.dedicated == "1",
      OptionalText(node.comment), OptionalText(node.url),
      node.mode, ModeName(node.mode, true), ModeName(node.mode, false),
      node.realm, ranked, database, DatabaseName(database), location,
      if ranked then RankedMark + name else name,
      Summary(typeName, PyStr(MapDisplay(m)), counts.current, max))
  }

  /**
   * `Server.load`, with the display name of an unknown map falling back to
   * its id, so that every server whose integers parse loads.
   */
  method Load(node: ServerNode, playersCell: Option<string>, location: ServerLocation, maps: MapTable)
    returns (r: Result<Server, LoadError>)
    ensures r.Failure? <==> !IntsParse(node)
    ensures r.Failure? ==> r.error == IntsError(node)
    ensures node.port.None? ==> r == Failure(TypeError)
    ensures r.Success? && node.mode.None? ==> r.value.modeName == "N/A" && r.value.modeNameLong == "N/A"
    ensures r.Success? ==>
      var s := r.value;
      && s.name == Strip(node.name)
      && s.port == IntOf(node.port).value
      && s.ipAndPort == node.address + ":" + IntToString(s.port)
      && s.serverType == NodePath(node.mapId).0 && s.serverMap == NodeMap(node.mapId, maps)
      && s.typeName == TypeName(s.serverType)
      && s.bots == IntOf(node.bots).value
      && s.players.current == (if IntOf(node.currentPlayers).value < 0 then 0 else IntOf(node.currentPlayers).value)
      && s.players.max == IntOf(node.maxPlayers).value
      && s.players.free == s.players.max - s.players.current
      && s.players.list == PlayersList(playersCell)
      && (s.isDedicated <==> node.dedicated == "1")
      && s.comment == OptionalText(node.comment) && s.website == OptionalText(node.url)
      && s.mode == node.mode
      && s.modeName == ModeName(node.mode, true) && s.modeNameLong == ModeName(node.mode, false)
      && (s.isRanked <==> IsRanked(node.realm))
      && s.database == GetDatabase(s.isRanked, node.realm)
      && s.databaseName == DatabaseName(s.database)
      && s.nameDisplay == (if s.isRanked then RankedMark + s.name else s.name)
      && s.summary == Summary(s.typeName, PyStr(MapDisplay(s.serverMap)), s.players.current, s.players.max)
      && s.location == location
  {
    var port := IntOf(node.port);
    if port.Failure? {
      return Failure(port.error);
    }
    var bots := IntOf(node.bots);
    if bots.Failure? {
      return Failure(bots.error);
    }
    var current := IntOf(node.currentPlayers);
    if current.Failure? {
      return Failure(current.error);
    }
    var max := IntOf(node.maxPlayers);
    if max.Failure? {
      return Failure(max.error);
    }
    var path := NodePath(node.mapId);
    var m := NodeMap(node.mapId, maps);
    var s := Build(node, port.value, bots.value, current.value, max.value, path.0, m, playersCell, location);
    return Success(s);
  }

  /** The two loaders agree whenever the map is known, and the corrected one names an unknown map after its id. */
  lemma LoadMapDisplay(maps: MapTable, serverType: Option<string>, mapId: Option<string>)
    ensures MapOf(maps, serverType, mapId).nameDisplay.None? ==> MapDisplay(MapOf(maps, serverType, mapId)) == mapId
    ensures MapOf(maps, serverType, mapId).nameDisplay.Some? ==>
      var info := GetMap(maps, serverType.value, mapId.value).value.info;
      MapDisplay(MapOf(maps, serverType, mapId)) == Some(if info.name != [] then info.name else mapId.value)
  {
  }

  /** A `/<type>/maps/<id>` path without other slashes reads as that game type and map id. */
  lemma NodePathOf(serverType: string, mapId: string)
    requires |serverType| >= 2 && serverType[0] != '\n' && '/' !in serverType
    requires |mapId| >= 1 && '\n' !in mapId && '/' !in mapId
    ensures NodePath("/" + serverType + "/maps/" + mapId) == (Some(serverType), Some(mapId))
  {
    var s := "/" + serverType + "/maps/" + mapId;
    var n := |serverType|;
    forall i | 0 <= i < |s| - 1
      ensures s[i] != '/' || s[i + 1] != '/'
    {
      if i == 0 {
        assert s[1] == serverType[0];
      } else if i <= n {
        assert s[i] == serverType[i - 1];
      } else if i == n + 1 {
        assert s[i + 1] == 'm';
      } else if i <= n + 5 {
        assert s[i] == "/maps/"[i - n - 1];
      } else if i == n + 6 {
        assert s[i + 1] == mapId[0];
      } else {
        assert s[i] == mapId[i - n - 7];
      }
    }
    NoAdjacent(s, '/');
    ReplaceAllAbsent(s, "//", "/");
    ParseMapPathOf(serverType, mapId);
  }

  /** A server whose map path is well formed but names a map the table does not know. */
  lemma UnknownMapRaises()
    ensures NodePath(UnknownPath) == (Some("vanilla"), Some("map99"))
    ensures NodeMap(UnknownPath, Moorland).nameDisplay.None?
  {
    var serverType, mapId := "vanilla", "map99";
    assert '/' !in serverType && '\n' !in mapId && '/' !in mapId;
    NodePathOf(serverType, mapId);
    assert UnknownPath == "/" + serverType + "/maps/" + mapId;
    assert Lookup(Moorland[0].1, mapId).None?;
  }

  /** The map path of a vanilla map the table `Moorland` does not know. */
  const UnknownPath := "/vanilla/maps/map99"

  /** A map table that knows one vanilla map. */
  const Moorland: MapTable := [("vanilla", [("map1", MapInfo("Moorland", true, true))])]
}
