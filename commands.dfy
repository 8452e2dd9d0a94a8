/**
 * `commands.py`: the decisions of the scheduled commands. The Steam
 * answer, the scraped servers, the stored peak variables and the latest
 * stat row of each account are inputs; the clock is the parameter
 * `clock`, read once per peak as the loop does; the MD5 of a stat row is
 * an abstract string; `rwr.utils.get_rank_from_xp(database, xp).id` is
 * the parameter `rankOf`.
 */
module Commands {
  import opened Wrappers
  import Seqs
  import RwrServer
  import RwrScraper
  import Models

  // ---------------------------------------------------------------- check_maintenance

  /** `check_maintenance`: the command's result, or `None` when the `maintenance` file exists and it is skipped. */
  function CheckMaintenance<T>(maintenanceFileExists: bool, command: () -> T): (r: Option<T>)
    ensures r.None? <==> maintenanceFileExists
    ensures r.Some? ==> r.value == command()
  {
    if maintenanceFileExists then None else Some(command())
  }

  // ---------------------------------------------------------------- get_players_count: counting

  /** A `ServerPlayerCount` row. */
  datatype ServerPlayerCount = ServerPlayerCount(ip: string, port: int, count: int)

  function CountRow(server: RwrServer.Server): ServerPlayerCount
  {
    ServerPlayerCount(server.ip, server.port, server.players.current)
  }

  /**
   * The loop over the servers: one row per server, and the three counters,
   * which agree with those `get_counters` computes for the same list.
   */
  method CountServers(servers: seq<RwrServer.Server>) returns (rows: seq<ServerPlayerCount>, online: int, onlineServers: nat, activeServers: nat)
    ensures |rows| == |servers| && forall i :: 0 <= i < |servers| ==> rows[i] == CountRow(servers[i])
    ensures online == RwrScraper.Counters(servers).0
    ensures activeServers == RwrScraper.Counters(servers).1
    ensures onlineServers == RwrScraper.Counters(servers).2
  {
    rows := [];
    online, onlineServers, activeServers := 0, 0, 0;
    for i := 0 to |servers|
      invariant |rows| == i && forall j :: 0 <= j < i ==> rows[j] == CountRow(servers[j])
      invariant online == Seqs.Sum(servers[..i], RwrScraper.Current)
      invariant activeServers == Seqs.Count(servers[..i], RwrScraper.Active)
      invariant onlineServers == i
    {
      assert servers[..i + 1] == servers[..i] + [servers[i]];
      Seqs.SumAppend(servers[..i], [servers[i]], RwrScraper.Current);
      Seqs.CountAppend(servers[..i], [servers[i]], RwrScraper.Active);
      rows := rows + [CountRow(servers[i])];
      online := online + servers[i].players.current;
      onlineServers := onlineServers + 1;
      if servers[i].players.current > 0 {
        activeServers := activeServers + 1;
      }
    }
    assert servers[..|servers|] == servers;
  }

  // ---------------------------------------------------------------- get_players_count: peaks

  /** The keys of `peak_refs`, in order. */
  const PeakNames: seq<string> := ["total_players_peak", "online_players_peak", "online_servers_peak", "active_servers_peak"]

  function CountKey(name: string): string { name + "_count" }

  function DateKey(name: string): string { name + "_date" }

  /** A count key never equals a date key: they end in different letters. */
  lemma KeysDiffer(a: string, b: string)
    ensures CountKey(a) != DateKey(b)
  {
    assert CountKey(a)[|CountKey(a)| - 1] == 't';
    assert DateKey(b)[|DateKey(b)| - 1] == 'e';
  }

  lemma KeysInjective(a: string, b: string)
    ensures CountKey(a) == CountKey(b) ==> a == b
    ensures DateKey(a) == DateKey(b) ==> a == b
  {
    if CountKey(a) == CountKey(b) {
      assert a == CountKey(a)[..|a|] && b == CountKey(b)[..|b|];
    }
    if DateKey(a) == DateKey(b) {
      assert a == DateKey(a)[..|a|] && b == DateKey(b)[..|b|];
    }
  }

  /** The values of `vars_to_update`: a peak count, or the minute it was reached. */
  datatype VarValue = Count(n: int) | Date(instant: int)

  /** `peak_values[name_count] if name_count in peak_values else 0`. */
  function StoredPeak(peakValues: map<string, int>, name: string): int
  {
    if CountKey(name) in peakValues then peakValues[CountKey(name)] else 0
  }

  /** `vars_to_update` after the loop has handled the given references. */
  function PeakUpdates(refs: seq<(string, int)>, peakValues: map<string, int>, clock: nat -> int): map<string, VarValue>
  {
    if refs == [] then map[]
    else
      var n := |refs| - 1;
      var before := PeakUpdates(refs[..n], peakValues, clock);
      if refs[n].1 >= StoredPeak(peakValues, refs[n].0) then
        before[CountKey(refs[n].0) := Count(refs[n].1)][DateKey(refs[n].0) := Date(Models.FloorTo(clock(n), Models.MicrosPerMinute))]
      else before
  }

  /** The loop over `peak_refs`. */
  method SavePeaks(refs: seq<(string, int)>, peakValues: map<string, int>, clock: nat -> int) returns (varsToUpdate: map<string, VarValue>)
    ensures varsToUpdate == PeakUpdates(refs, peakValues, clock)
  {
    varsToUpdate := map[];
    for i := 0 to |refs|
      invariant varsToUpdate == PeakUpdates(refs[..i], peakValues, clock)
    {
      assert refs[..i + 1][..i] == refs[..i];
      var name, value := refs[i].0, refs[i].1;
      var peakValue := if CountKey(name) in peakValues then peakValues[CountKey(name)] else 0;
      if value >= peakValue {
        varsToUpdate := varsToUpdate[CountKey(name) := Count(value)];
        varsToUpdate := varsToUpdate[DateKey(name) := Date(Models.FloorTo(clock(i), Models.MicrosPerMinute))];
      }
    }
    assert refs[..|refs|] == refs;
  }

  /** The keys of `peak_refs` are those of a dictionary: no two are equal. */
  predicate DistinctNames(refs: seq<(string, int)>)
  {
    forall i, j :: 0 <= i < j < |refs| ==> refs[i].0 != refs[j].0
  }

  /** Two different names have four different keys. */
  lemma KeysApart(a: string, b: string)
    requires a != b
    ensures CountKey(a) != CountKey(b) && CountKey(a) != DateKey(b)
    ensures DateKey(a) != CountKey(b) && DateKey(a) != DateKey(b)
  {
    KeysInjective(a, b);
    KeysDiffer(a, b);
    KeysDiffer(b, a);
  }

  /** Only the keys of the references are ever updated. */
  lemma {:induction false} PeakUpdatesKeys(refs: seq<(string, int)>, peakValues: map<string, int>, clock: nat -> int)
    ensures forall k :: k in PeakUpdates(refs, peakValues, clock) ==>
      exists i :: 0 <= i < |refs| && (k == CountKey(refs[i].0) || k == DateKey(refs[i].0))
  {
    if refs != [] {
      var n := |refs| - 1;
      var front := refs[..n];
      PeakUpdatesKeys(front, peakValues, clock);
      var before := PeakUpdates(front, peakValues, clock);
      forall k | k in PeakUpdates(refs, peakValues, clock)
        ensures exists i :: 0 <= i < |refs| && (k == CountKey(refs[i].0) || k == DateKey(refs[i].0))
      {
        if k !in before {
          assert k == CountKey(refs[n].0) || k == DateKey(refs[n].0);
        } else {
          var i :| 0 <= i < |front| && (k == CountKey(front[i].0) || k == DateKey(front[i].0));
          assert front[i] == refs[i];
        }
      }
    }
  }

  /** No key of a name missing from the references is updated. */
  lemma PeakUpdatesOthers(refs: seq<(string, int)>, peakValues: map<string, int>, clock: nat -> int, name: string)
    requires forall i :: 0 <= i < |refs| ==> refs[i].0 != name
    ensures CountKey(name) !in PeakUpdates(refs, peakValues, clock)
    ensures DateKey(name) !in PeakUpdates(refs, peakValues, clock)
  {
    PeakUpdatesKeys(refs, peakValues, clock);
    forall i | 0 <= i < |refs|
      ensures CountKey(name) != CountKey(refs[i].0) && CountKey(name) != DateKey(refs[i].0)
      ensures DateKey(name) != CountKey(refs[i].0) && DateKey(name) != DateKey(refs[i].0)
    {
      KeysApart(name, refs[i].0);
    }
  }

  /**
   * A reference updates its count and date exactly when it reaches the
   * stored peak (a missing one counts as zero), with its value and the
   * minute the clock shows for it.
   */
  lemma {:induction false} PeakUpdatesAt(refs: seq<(string, int)>, peakValues: map<string, int>, clock: nat -> int, i: nat)
    requires DistinctNames(refs) && i < |refs|
    ensures var u := PeakUpdates(refs, peakValues, clock);
      var updated := refs[i].1 >= StoredPeak(peakValues, refs[i].0);
      (CountKey(refs[i].0) in u <==> updated) && (DateKey(refs[i].0) in u <==> updated)
    ensures var u := PeakUpdates(refs, peakValues, clock);
      CountKey(refs[i].0) in u ==> u[CountKey(refs[i].0)] == Count(refs[i].1)
    ensures var u := PeakUpdates(refs, peakValues, clock);
      DateKey(refs[i].0) in u ==> u[DateKey(refs[i].0)] == Date(Models.FloorTo(clock(i), Models.MicrosPerMinute))
  {
    var n := |refs| - 1;
    var front := refs[..n];
    assert forall j :: 0 <= j < n ==> front[j] == refs[j];
    assert DistinctNames(front);
    KeysDiffer(refs[n].0, refs[n].0);
    if i == n {
      PeakUpdatesOthers(front, peakValues, clock, refs[n].0);
    } else {
      PeakUpdatesAt(front, peakValues, clock, i);
      KeysApart(refs[i].0, refs[n].0);
    }
  }

  /** The stored peak once `vars_to_update` is saved. */
  function PeakAfter(peakValues: map<string, int>, varsToUpdate: map<string, VarValue>, name: string): int
  {
    if CountKey(name) in varsToUpdate && varsToUpdate[CountKey(name)].Count? then varsToUpdate[CountKey(name)].n
    else StoredPeak(peakValues, name)
  }

  /** A stored peak never decreases: it becomes the larger of itself and the current value. */
  lemma PeakNeverDecreases(refs: seq<(string, int)>, peakValues: map<string, int>, clock: nat -> int, i: nat)
    requires DistinctNames(refs) && i < |refs|
    ensures var after := PeakAfter(peakValues, PeakUpdates(refs, peakValues, clock), refs[i].0);
      after >= StoredPeak(peakValues, refs[i].0)
      && after == (if refs[i].1 >= StoredPeak(peakValues, refs[i].0) then refs[i].1 else StoredPeak(peakValues, refs[i].0))
  {
    PeakUpdatesAt(refs, peakValues, clock, i);
  }

  /** `peak_refs`. */
  function PeakRefs(total: int, online: int, onlineServers: int, active: int): (r: seq<(string, int)>)
    ensures DistinctNames(r)
  {
    [(PeakNames[0], total), (PeakNames[1], online), (PeakNames[2], onlineServers), (PeakNames[3], active)]
  }

  // ---------------------------------------------------------------- get_players_count

  /** `None > 0` raises in Python 3. */
  datatype CommandError = TypeError

  /** What `get_players_count` hands to the session: the Steam count row if any, the server rows, the peak variables. */
  datatype PlayersCount = PlayersCount(steamCount: Option<int>, serverRows: seq<ServerPlayerCount>, varsToUpdate: map<string, VarValue>)

  /**
   * `get_players_count` as written: a missing Steam count (`None`) reaches
   * `count > 0` and raises before anything is committed.
   */
  method GetPlayersCountAsWritten(steamCount: Option<int>, servers: seq<RwrServer.Server>, peakValues: map<string, int>, clock: nat -> int)
    returns (r: Result<PlayersCount, CommandError>)
    ensures r.Failure? <==> steamCount.None?
    ensures r.Success? ==> r.value.steamCount == (if steamCount.value > 0 then steamCount else None)
    ensures r.Success? ==> var c := RwrScraper.Counters(servers);
      r.value.varsToUpdate == PeakUpdates(PeakRefs(steamCount.value, c.0, c.2, c.1), peakValues, clock)
  {
    if steamCount.None? {
      return Failure(TypeError);
    }
    var total := steamCount.value;
    var saved := if total > 0 then steamCount else None;
    var rows, online, onlineServers, active := CountServers(servers);
    var varsToUpdate := SavePeaks(PeakRefs(total, online, onlineServers, active), peakValues, clock);
    return Success(PlayersCount(saved, rows, varsToUpdate));
  }

  /**
   * `get_players_count` as intended: a missing Steam count is not saved
   * and leaves the total players peak alone; the server counts and their
   * peaks are still recorded.
   */
  method GetPlayersCount(steamCount: Option<int>, servers: seq<RwrServer.Server>, peakValues: map<string, int>, clock: nat -> int)
    returns (r: PlayersCount)
    ensures r.steamCount.Some? <==> steamCount.Some? && steamCount.value > 0
    ensures r.steamCount.Some? ==> r.steamCount == steamCount
    ensures |r.serverRows| == |servers| && forall i :: 0 <= i < |servers| ==> r.serverRows[i] == CountRow(servers[i])
    ensures var c := RwrScraper.Counters(servers);
      var refs := PeakRefs(if steamCount.Some? then steamCount.value else 0, c.0, c.2, c.1);
      r.varsToUpdate == PeakUpdates(if steamCount.Some? then refs else refs[1..], peakValues, clock)
  {
    var saved := if steamCount.Some? && steamCount.value > 0 then steamCount else None;
    var rows, online, onlineServers, active := CountServers(servers);
    var refs := PeakRefs(if steamCount.Some? then steamCount.value else 0, online, onlineServers, active);
    var varsToUpdate := SavePeaks(if steamCount.Some? then refs else refs[1..], peakValues, clock);
    return PlayersCount(saved, rows, varsToUpdate);
  }

  /** Without a Steam count, the intended command still records every server-side peak and never the total one. */
  lemma MissingSteamCountKeepsTotal(servers: seq<RwrServer.Server>, peakValues: map<string, int>, clock: nat -> int)
    ensures var c := RwrScraper.Counters(servers);
      var u := PeakUpdates(PeakRefs(0, c.0, c.2, c.1)[1..], peakValues, clock);
      CountKey(PeakNames[0]) !in u && DateKey(PeakNames[0]) !in u
  {
    var c := RwrScraper.Counters(servers);
    var refs := PeakRefs(0, c.0, c.2, c.1)[1..];
    PeakUpdatesOthers(refs, peakValues, clock, PeakNames[0]);
  }

  // ---------------------------------------------------------------- save_players_stats

  /** A freshly built stat row before the promotion check: its account, its xp and its `compute_hash` value. */
  datatype PlayerStat = PlayerStat(accountId: int, xp: int, hash: string)

  /** A stored or queued `RwrAccountStat` row. */
  datatype StatRow = StatRow(accountId: int, xp: int, hash: string, promotedToRankId: Option<int>)

  /** `current_rank.id if current_rank.id != previous_rank.id else None`. */
  function Promotion(previousXp: int, currentXp: int, rankOf: int -> int): (r: Option<int>)
    ensures r.Some? <==> rankOf(currentXp) != rankOf(previousXp)
    ensures r.Some? ==> r.value == rankOf(currentXp)
  {
    if rankOf(currentXp) != rankOf(previousXp) then Some(rankOf(currentXp)) else None
  }

  /** With a rank that grows with the xp, a promotion after an xp gain is always to a higher rank. */
  lemma PromotionRaisesRank(previousXp: int, currentXp: int, rankOf: int -> int)
    requires forall x, y :: x <= y ==> rankOf(x) <= rankOf(y)
    requires previousXp <= currentXp
    ensures Promotion(previousXp, currentXp, rankOf).Some? ==> Promotion(previousXp, currentXp, rankOf).value > rankOf(previousXp)
  {
  }

  /** The row `save_players_stats` builds: the promotion is only looked for when the account has a previous row. */
  function Built(previous: Option<StatRow>, stat: PlayerStat, rankOf: int -> int): (r: StatRow)
    ensures r.accountId == stat.accountId && r.xp == stat.xp && r.hash == stat.hash
    ensures previous.None? ==> r.promotedToRankId.None?
    ensures previous.Some? ==> r.promotedToRankId == Promotion(previous.value.xp, stat.xp, rankOf)
  {
    StatRow(stat.accountId, stat.xp, stat.hash, if previous.None? then None else Promotion(previous.value.xp, stat.xp, rankOf))
  }

  /** Python truthiness of a rank id: `None` and `0` are false. */
  predicate TruthyId(id: Option<int>)
  {
    id.Some? && id.value != 0
  }

  /** The queueing test: no previous row, a (truthy) promotion, or a changed hash. */
  predicate Queued(previous: Option<StatRow>, row: StatRow)
  {
    previous.None? || TruthyId(row.promotedToRankId) || previous.value.hash != row.hash
  }

  /** The latest stored row of an account, as the `created_at desc` query finds it. */
  function Previous(latest: map<int, StatRow>, accountId: int): Option<StatRow>
  {
    if accountId in latest then Some(latest[accountId]) else None
  }

  /** `all_rwr_accounts_stat` after the loop has handled the given players. */
  function Selected(players: seq<PlayerStat>, latest: map<int, StatRow>, rankOf: int -> int): seq<StatRow>
  {
    if players == [] then []
    else
      var n := |players| - 1;
      var previous := Previous(latest, players[n].accountId);
      var row := Built(previous, players[n], rankOf);
      Selected(players[..n], latest, rankOf) + (if Queued(previous, row) then [row] else [])
  }

  /** The loop of one chunk that builds the rows and appends those worth saving. */
  method SelectStats(players: seq<PlayerStat>, latest: map<int, StatRow>, rankOf: int -> int) returns (queued: seq<StatRow>)
    ensures queued == Selected(players, latest, rankOf)
  {
    queued := [];
    for i := 0 to |players|
      invariant queued == Selected(players[..i], latest, rankOf)
    {
      assert players[..i + 1][..i] == players[..i];
      var previous := Previous(latest, players[i].accountId);
      var row := Built(previous, players[i], rankOf);
      if Queued(previous, row) {
        queued := queued + [row];
      }
    }
    assert players[..|players|] == players;
  }

  /** The queued rows are exactly the built rows that pass the test, in player order. */
  lemma {:induction false} SelectedRows(players: seq<PlayerStat>, latest: map<int, StatRow>, rankOf: int -> int, row: StatRow)
    ensures row in Selected(players, latest, rankOf) <==>
      exists i :: 0 <= i < |players| && row == Built(Previous(latest, players[i].accountId), players[i], rankOf)
        && Queued(Previous(latest, players[i].accountId), row)
    ensures |Selected(players, latest, rankOf)| <= |players|
  {
    if players != [] {
      var n := |players| - 1;
      SelectedRows(players[..n], latest, rankOf, row);
      assert forall i :: 0 <= i < n ==> players[..n][i] == players[i];
    }
  }

  /** A first row for an account is always saved. */
  lemma NewAccountQueued(stat: PlayerStat, rankOf: int -> int)
    ensures Queued(None, Built(None, stat, rankOf))
  {
  }

  /** A row identical to the latest one, at the same rank, is not saved again. */
  lemma UnchangedNotQueued(previous: StatRow, stat: PlayerStat, rankOf: int -> int)
    requires previous.hash == stat.hash && rankOf(previous.xp) == rankOf(stat.xp)
    ensures !Queued(Some(previous), Built(Some(previous), stat, rankOf))
  {
  }

  /** A promotion to a rank with a non-zero id is always saved. */
  lemma PromotionQueued(previous: StatRow, stat: PlayerStat, rankOf: int -> int)
    requires rankOf(previous.xp) != rankOf(stat.xp) && rankOf(stat.xp) != 0
    ensures Queued(Some(previous), Built(Some(previous), stat, rankOf))
  {
  }

  // ---------------------------------------------------------------- compute_promotions

  /** What `compute_promotions` leaves in the rows of one account, ordered by creation. */
  function Recomputed(rows: seq<StatRow>, rankOf: int -> int, i: nat): (r: Option<int>)
    requires i < |rows|
    ensures i == 0 ==> r.None?
    ensures i > 0 ==> r == Built(Some(rows[i - 1]), PlayerStat(rows[i].accountId, rows[i].xp, rows[i].hash), rankOf).promotedToRankId
  {
    if i == 0 then None else Promotion(rows[i - 1].xp, rows[i].xp, rankOf)
  }

  /**
   * `compute_promotions` for one account: every promotion is reset, then
   * each row but the first (which has no previous row) gets the promotion
   * from the row before it.
   */
  method ComputePromotions(rows: array<StatRow>, rankOf: int -> int)
    modifies rows
    ensures forall i :: 0 <= i < rows.Length ==>
      rows[i] == old(rows[i]).(promotedToRankId := Recomputed(old(rows[..]), rankOf, i))
  {
    for i := 0 to rows.Length
      invariant forall j :: 0 <= j < i ==> rows[j] == old(rows[j]).(promotedToRankId := None)
      invariant forall j :: i <= j < rows.Length ==> rows[j] == old(rows[j])
    {
      rows[i] := rows[i].(promotedToRankId := None);
    }
    if rows.Length == 0 {
      return;
    }
    ghost var reset := rows[..];
    for i := 1 to rows.Length
      invariant forall j :: 0 <= j < rows.Length ==> rows[j].xp == old(rows[j]).xp
      invariant forall j :: 0 <= j < i ==> rows[j] == old(rows[j]).(promotedToRankId := Recomputed(old(rows[..]), rankOf, j))
      invariant forall j :: i <= j < rows.Length ==> rows[j] == reset[j]
    {
      rows[i] := rows[i].(promotedToRankId := Promotion(rows[i - 1].xp, rows[i].xp, rankOf));
    }
  }
}
