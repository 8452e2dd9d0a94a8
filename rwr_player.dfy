/**
 * `rwr/player.py`: a player's rank, next rank and XP still to earn, the
 * game type of its database, what it has unlocked, and the server it plays on.
 *
 * The rank tables (`RANKS`) and the unlock tables (`UNLOCKABLES`) are data
 * files; the members that consult them take them as parameters.
 */
module RwrPlayer {
  import opened Wrappers
  import opened Decimal
  import opened RwrConstants
  import opened RwrServer
  import Seqs

  // ---------------------------------------------------------------- ranks

  /** One entry of a ranks table. */
  datatype RankInfo = RankInfo(name: string, xp: int)

  /** `RANKS`: for each ranks country, its ranks keyed by the decimal text of their id. */
  type RankTables = map<string, map<string, RankInfo>>

  /** `PlayerRank`; its class defaults are `id = None`, `name = None`, `xp = 0`. */
  datatype PlayerRank = PlayerRank(id: Option<int>, name: Option<string>, xp: int)

  const EmptyRank := PlayerRank(None, None, 0)

  /** The `KeyError` a dictionary lookup raises on a missing key. */
  datatype KeyError = KeyError(key: string)

  /** The rank id at which there is nothing left to reach. */
  const HighestRankId := 16

  /** `RANKS[PLAYERS_LIST_DATABASES[database]['ranks_country']]`. */
  function ApplicableRanks(ranks: RankTables, pacificCountry: string, database: string): (r: Result<map<string, RankInfo>, KeyError>)
    ensures r.Failure? <==> database !in ValidDatabases || RanksCountry(database, pacificCountry).value !in ranks
    ensures r.Success? ==> r.value == ranks[RanksCountry(database, pacificCountry).value]
  {
    match RanksCountry(database, pacificCountry)
    case None => Failure(KeyError(database))
    case Some(country) =>
      if country in ranks then Success(ranks[country]) else Failure(KeyError(country))
  }

  /**
   * `get_rank_object(rank_id, return_none)`: the rank copied from the table
   * when its id is listed; otherwise `None` or an empty rank.
   */
  function GetRankObject(ranks: RankTables, pacificCountry: string, database: string, rankId: int, returnNone: bool)
    : (r: Result<Option<PlayerRank>, KeyError>)
    ensures r.Failure? <==> ApplicableRanks(ranks, pacificCountry, database).Failure?
    ensures r.Success? ==>
      var table := ApplicableRanks(ranks, pacificCountry, database).value;
      var key := IntToString(rankId);
      && (key in table ==> r.value == Some(PlayerRank(Some(rankId), Some(table[key].name), table[key].xp)))
      && (key !in table ==> r.value == (if returnNone then None else Some(EmptyRank)))
  {
    match ApplicableRanks(ranks, pacificCountry, database)
    case Failure(e) => Failure(e)
    case Success(table) =>
      var key := IntToString(rankId);
      if key !in table then Success(if returnNone then None else Some(EmptyRank))
      else Success(Some(PlayerRank(Some(rankId), Some(table[key].name), table[key].xp)))
  }

  /** Two different rank ids never read the same table entry: their keys differ. */
  lemma RankKeysDistinct(a: int, b: int)
    requires a != b
    ensures IntToString(a) != IntToString(b)
  {
    IntToStringRoundTrip(a);
    IntToStringRoundTrip(b);
  }

  /** A rank read from the table carries the id it was asked for; with `return_none` unset there is always a rank. */
  lemma RankObjectId(ranks: RankTables, pacificCountry: string, database: string, rankId: int, returnNone: bool)
    requires GetRankObject(ranks, pacificCountry, database, rankId, returnNone).Success?
    ensures var r := GetRankObject(ranks, pacificCountry, database, rankId, returnNone).value;
      && (!returnNone ==> r.Some?)
      && (r.Some? ==> r.value.id.None? || r.value.id == Some(rankId))
      && (r.Some? && r.value.id.None? ==> r.value == EmptyRank)
  {
  }

  /** What `get_next_rank` returns: `None`, `False` (highest rank reached) or a rank. */
  datatype NextRank = NoNextRank | HighestRank | Next(rank: PlayerRank)

  /** `get_next_rank`: nothing without a rank id, `False` at the highest rank, else the (possibly empty) rank one above. */
  function GetNextRank(ranks: RankTables, pacificCountry: string, database: string, rank: PlayerRank)
    : (r: Result<NextRank, KeyError>)
    ensures rank.id.None? ==> r == Success(NoNextRank)
    ensures rank.id == Some(HighestRankId) ==> r == Success(HighestRank)
    ensures rank.id.Some? && rank.id.value != HighestRankId ==>
      && (r.Failure? <==> ApplicableRanks(ranks, pacificCountry, database).Failure?)
      && (r.Success? ==> r.value.Next? && r.value == Next(GetRankObject(ranks, pacificCountry, database, rank.id.value + 1, false).value.value))
  {
    if rank.id.None? then Success(NoNextRank)
    else if rank.id.value == HighestRankId then Success(HighestRank)
    else
      match GetRankObject(ranks, pacificCountry, database, rank.id.value + 1, false)
      case Failure(e) => Failure(e)
      case Success(next) => Success(Next(next.value))
  }

  /** `get_xp_to_next_rank`: the XP of the next rank minus the player's, when there is one (a rank object is always truthy). */
  function XpToNextRank(next: NextRank, xp: int): (r: Option<int>)
    ensures r.Some? <==> next.Next?
    ensures r.Some? ==> xp + r.value == next.rank.xp
  {
    if next.Next? then Some(next.rank.xp - xp) else None
  }

  /**
   * Below the highest rank, a player whose next rank is listed needs that
   * rank's XP minus its own; one whose next rank is missing from the table
   * gets the empty rank and so a negative figure, `-xp`.
   */
  lemma XpToNextRankOf(ranks: RankTables, pacificCountry: string, database: string, id: int, xp: int)
    requires id != HighestRankId
    requires ApplicableRanks(ranks, pacificCountry, database).Success?
    ensures var table := ApplicableRanks(ranks, pacificCountry, database).value;
      var next := GetNextRank(ranks, pacificCountry, database, PlayerRank(Some(id), None, 0)).value;
      && (IntToString(id + 1) in table ==> XpToNextRank(next, xp) == Some(table[IntToString(id + 1)].xp - xp))
      && (IntToString(id + 1) !in table ==> XpToNextRank(next, xp) == Some(-xp))
  {
  }

  /** `get_game_type_from_database`: `invasion` players play `vanilla`; any other database names its game type. */
  function GameTypeFromDatabase(database: string): (r: string)
    ensures r == "vanilla" <==> database == "invasion" || database == "vanilla"
    ensures database != "invasion" ==> r == database
  {
    if database == "invasion" then "vanilla" else database
  }

  /** A game type is its own game type. */
  lemma GameTypeIdempotent(database: string)
    ensures GameTypeFromDatabase(GameTypeFromDatabase(database)) == GameTypeFromDatabase(database)
  {
  }

  // ---------------------------------------------------------------- unlocks

  /** One squad mate is gained every `SquadmatesStepsXp` XP, up to `MaxSquadmates`. */
  const SquadmatesStepsXp := 1000
  const MaxSquadmates := 10

  /** The current number of squad mates: `floor(xp / 1000)` below `10 * 1000` XP, else the maximum. */
  function SquadMatesCurrent(xp: int): (n: int)
    ensures n <= MaxSquadmates
    ensures xp >= 0 ==> n >= 0
    ensures xp < MaxSquadmates * SquadmatesStepsXp ==> n * SquadmatesStepsXp <= xp < (n + 1) * SquadmatesStepsXp
    ensures xp >= MaxSquadmates * SquadmatesStepsXp ==> n == MaxSquadmates
  {
    if xp < MaxSquadmates * SquadmatesStepsXp then xp / SquadmatesStepsXp else MaxSquadmates
  }

  /** More XP never means fewer squad mates. */
  lemma SquadMatesMonotone(a: int, b: int)
    requires a <= b
    ensures SquadMatesCurrent(a) <= SquadMatesCurrent(b)
  {
  }

  /** An unlockable item of the data file. */
  datatype Unlockable = Unlockable(image: string, name: string)

  /** An item as `get_unlocks` lists it: tagged with the XP it needs and whether the player has that much. */
  datatype UnlockedItem = UnlockedItem(item: Unlockable, requiredXp: int, unlocked: bool)

  /** `UNLOCKABLES[game_type]`: XP thresholds in file order, each with its items by category. */
  type UnlockTable = seq<(int, map<string, seq<Unlockable>>)>

  /** One category of the result: the listed items, how many are unlocked, and how many there are. */
  datatype Category = Category(list: seq<UnlockedItem>, current: nat, max: nat)

  datatype SquadMates = SquadMates(current: int, xpSteps: int, max: int)

  datatype Unlocks = Unlocks(squadMates: SquadMates, radioCalls: Category, weapons: Category,
                             equipment: Category, throwables: Category)

  /** The items of one category at one threshold; none when the category is absent there. */
  function Items(unlocks: map<string, seq<Unlockable>>, kind: string): seq<Unlockable>
  {
    if kind in unlocks then unlocks[kind] else []
  }

  /** `max`: how many items of the category the whole table holds. */
  function CategoryMax(table: UnlockTable, kind: string): nat
  {
    if table == [] then 0
    else CategoryMax(table[..|table| - 1], kind) + |Items(table[|table| - 1].1, kind)|
  }

  /** The items of one threshold, tagged. */
  function Tagged(items: seq<Unlockable>, requiredXp: int, xp: int): (r: seq<UnlockedItem>)
    ensures |r| == |items|
    ensures forall i :: 0 <= i < |r| ==> r[i] == UnlockedItem(items[i], requiredXp, xp >= requiredXp)
  {
    seq(|items|, i requires 0 <= i < |items| => UnlockedItem(items[i], requiredXp, xp >= requiredXp))
  }

  /** `list`: every item of the category, threshold after threshold, each tagged. */
  function CategoryList(table: UnlockTable, kind: string, xp: int): (r: seq<UnlockedItem>)
    ensures forall e :: e in r ==> (e.unlocked <==> xp >= e.requiredXp)
  {
    if table == [] then []
    else
      var t := table[|table| - 1];
      CategoryList(table[..|table| - 1], kind, xp) + Tagged(Items(t.1, kind), t.0, xp)
  }

  /** How many listed items are unlocked. */
  function CountUnlocked(list: seq<UnlockedItem>): (n: nat)
    ensures n <= |list|
  {
    if list == [] then 0
    else CountUnlocked(list[..|list| - 1]) + (if list[|list| - 1].unlocked then 1 else 0)
  }

  lemma {:induction false} CountUnlockedAppend(a: seq<UnlockedItem>, b: seq<UnlockedItem>)
    ensures CountUnlocked(a + b) == CountUnlocked(a) + CountUnlocked(b)
    decreases |b|
  {
    if b == [] {
      assert a + b == a;
    } else {
      assert (a + b)[..|a + b| - 1] == a + b[..|b| - 1];
      CountUnlockedAppend(a, b[..|b| - 1]);
    }
  }

  /** The category as `get_unlocks` reports it. */
  function CategoryOf(table: UnlockTable, kind: string, xp: int): Category
  {
    var list := CategoryList(table, kind, xp);
    Category(list, CountUnlocked(list), CategoryMax(table, kind))
  }

  /** Every item of the category is listed once: the list is as long as `max`. */
  lemma {:induction false} CategoryListLength(table: UnlockTable, kind: string, xp: int)
    ensures |CategoryList(table, kind, xp)| == CategoryMax(table, kind)
  {
    if table != [] {
      CategoryListLength(table[..|table| - 1], kind, xp);
    }
  }

  /** `current <= max` in every category. */
  lemma CurrentAtMostMax(table: UnlockTable, kind: string, xp: int)
    ensures CategoryOf(table, kind, xp).current <= CategoryOf(table, kind, xp).max
  {
    CategoryListLength(table, kind, xp);
  }

  /** More XP never unlocks fewer items. */
  lemma {:induction false} CurrentMonotone(table: UnlockTable, kind: string, a: int, b: int)
    requires a <= b
    ensures CountUnlocked(CategoryList(table, kind, a)) <= CountUnlocked(CategoryList(table, kind, b))
  {
    if table != [] {
      var t := table[|table| - 1];
      var init := table[..|table| - 1];
      CurrentMonotone(init, kind, a, b);
      CountUnlockedAppend(CategoryList(init, kind, a), Tagged(Items(t.1, kind), t.0, a));
      CountUnlockedAppend(CategoryList(init, kind, b), Tagged(Items(t.1, kind), t.0, b));
      TaggedCount(Items(t.1, kind), t.0, a);
      TaggedCount(Items(t.1, kind), t.0, b);
    }
  }

  /** The items of one threshold are all unlocked or all locked. */
  lemma {:induction false} TaggedCount(items: seq<Unlockable>, requiredXp: int, xp: int)
    ensures CountUnlocked(Tagged(items, requiredXp, xp)) == if xp >= requiredXp then |items| else 0
    decreases |items|
  {
    if items != [] {
      var n := |items| - 1;
      assert Tagged(items, requiredXp, xp)[..n] == Tagged(items[..n], requiredXp, xp);
      TaggedCount(items[..n], requiredXp, xp);
    }
  }

  /** A player past every threshold has unlocked the whole category. */
  lemma {:induction false} AllUnlocked(table: UnlockTable, kind: string, xp: int)
    requires forall i :: 0 <= i < |table| ==> table[i].0 <= xp
    ensures CategoryOf(table, kind, xp).current == CategoryOf(table, kind, xp).max
  {
    if table != [] {
      var t := table[|table| - 1];
      var init := table[..|table| - 1];
      AllUnlocked(init, kind, xp);
      CountUnlockedAppend(CategoryList(init, kind, xp), Tagged(Items(t.1, kind), t.0, xp));
      TaggedCount(Items(t.1, kind), t.0, xp);
    }
  }

  /** `_compute_unlockable` at one threshold: tag each item, list it, and count it when unlocked. */
  method TagItems(list: seq<UnlockedItem>, current: nat, items: seq<Unlockable>, requiredXp: int, xp: int)
    returns (list': seq<UnlockedItem>, current': nat)
    requires current == CountUnlocked(list)
    ensures list' == list + Tagged(items, requiredXp, xp)
    ensures current' == CountUnlocked(list')
  {
    list', current' := list, current;
    var j := 0;
    while j < |items|
      invariant 0 <= j <= |items|
      invariant list' == list + Tagged(items[..j], requiredXp, xp)
      invariant current' == CountUnlocked(list')
    {
      var unlocked := xp >= requiredXp;
      var e := UnlockedItem(items[j], requiredXp, unlocked);
      assert Tagged(items[..j + 1], requiredXp, xp) == Tagged(items[..j], requiredXp, xp) + [e];
      assert (list' + [e])[..|list'|] == list';
      list' := list' + [e];
      if unlocked {
        current' := current' + 1;
      }
      j := j + 1;
    }
    assert items[..j] == items;
  }

  /** `_init_unlockable` and `_compute_unlockable` for one category: walk the thresholds, tagging and counting their items. */
  method ComputeCategory(table: UnlockTable, kind: string, xp: int) returns (c: Category)
    ensures c == CategoryOf(table, kind, xp)
  {
    var list: seq<UnlockedItem> := [];
    var current: nat := 0;
    var i := 0;
    while i < |table|
      invariant 0 <= i <= |table|
      invariant list == CategoryList(table[..i], kind, xp)
      invariant current == CountUnlocked(list)
    {
      list, current := TagItems(list, current, Items(table[i].1, kind), table[i].0, xp);
      assert table[..i + 1][..i] == table[..i] && table[..i + 1][i] == table[i];
      i := i + 1;
    }
    assert table[..i] == table;
    c := Category(list, current, CategoryMax(table, kind));
  }

  /** `get_unlocks`: the squad mates and the four categories of the player's game type. */
  method GetUnlocks(unlockables: map<string, UnlockTable>, gameType: string, xp: int) returns (r: Result<Unlocks, KeyError>)
    ensures r.Failure? <==> gameType !in unlockables
    ensures r.Success? ==>
      var table := unlockables[gameType];
      && r.value.squadMates == SquadMates(SquadMatesCurrent(xp), SquadmatesStepsXp, MaxSquadmates)
      && r.value.radioCalls == CategoryOf(table, "radio_calls", xp)
      && r.value.weapons == CategoryOf(table, "weapons", xp)
      && r.value.equipment == CategoryOf(table, "equipment", xp)
      && r.value.throwables == CategoryOf(table, "throwables", xp)
  {
    if gameType !in unlockables {
      return Failure(KeyError(gameType));
    }
    var table := unlockables[gameType];
    var squadMates := SquadMates(SquadMatesCurrent(xp), SquadmatesStepsXp, MaxSquadmates);
    var radioCalls := ComputeCategory(table, "radio_calls", xp);
    var weapons := ComputeCategory(table, "weapons", xp);
    var equipment := ComputeCategory(table, "equipment", xp);
    var throwables := ComputeCategory(table, "throwables", xp);
    return Success(Unlocks(squadMates, radioCalls, weapons, equipment, throwables));
  }

  // ---------------------------------------------------------------- playing on a server

  /** The player list of a server. */
  function PlayersOf(server: Server): seq<string>
  {
    server.players.list
  }

  /**
   * The index of the first server whose player list, as `players` reads
   * it, names the player. The legacy copy of the loop runs over the legacy
   * server records, hence the type parameter.
   */
  function FirstListing<S>(servers: seq<S>, players: S -> seq<string>, username: string): (r: Option<nat>)
    ensures r.Some? ==> r.value < |servers| && username in players(servers[r.value])
    ensures r.Some? ==> forall j :: 0 <= j < r.value ==> username !in players(servers[j])
    ensures r.None? <==> forall j :: 0 <= j < |servers| ==> username !in players(servers[j])
  {
    if servers == [] then None
    else if players(servers[0]) != [] && username in players(servers[0]) then Some(0)
    else
      match FirstListing(servers[1..], players, username)
      case None =>
        assert forall j :: 1 <= j < |servers| ==> servers[j] == servers[1..][j - 1];
        None
      case Some(k) =>
        assert forall j :: 1 <= j <= k ==> servers[j] == servers[1..][j - 1];
        Some(k + 1)
  }

  /** The index of the first server whose player list names the player. */
  function PlayingServerIndex(servers: seq<Server>, username: string): (r: Option<nat>)
    ensures r.Some? ==> r.value < |servers| && username in servers[r.value].players.list
    ensures r.Some? ==> forall j :: 0 <= j < r.value ==> username !in servers[j].players.list
    ensures r.None? <==> forall j :: 0 <= j < |servers| ==> username !in servers[j].players.list
  {
    FirstListing(servers, PlayersOf, username)
  }

  /** A player of the players list, over the server records `S` of its list. */
  class Player<S> {
    var username: string
    var playingOnServer: Option<S>

    constructor (username: string)
      ensures this.username == username && playingOnServer.None?
    {
      this.username := username;
      playingOnServer := None;
    }

    /** `set_playing_on_server`: the first server listing the player; unchanged when none does. */
    method SetPlayingOnServer(servers: seq<S>, players: S -> seq<string>)
      modifies this
      ensures username == old(username)
      ensures FirstListing(servers, players, username).Some? ==>
        playingOnServer == Some(servers[FirstListing(servers, players, username).value])
      ensures FirstListing(servers, players, username).None? ==> playingOnServer == old(playingOnServer)
    {
      var i := 0;
      while i < |servers|
        invariant 0 <= i <= |servers|
        invariant forall j :: 0 <= j < i ==> username !in players(servers[j])
        invariant playingOnServer == old(playingOnServer)
      {
        if players(servers[i]) == [] {
          i := i + 1;
          continue;
        }
        if username in players(servers[i]) {
          playingOnServer := Some(servers[i]);
          return;
        }
        i := i + 1;
      }
    }
  }
}
