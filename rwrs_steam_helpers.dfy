/**
 * `rwrs/steam_helpers.py`: reading Steam's answers. The Web API calls
 * are not modelled; their decoded JSON answers are inputs, as maps.
 */
module RwrsSteamHelpers {
  import opened Wrappers
  import opened Decimal

  // ---------------------------------------------------------------- parse_steam_id_from_identity_url

  /**
   * The literal part of `steamcommunity.com/openid/id/([0-9]+)$`; its
   * unescaped `.` (index 14) stands for any character but a newline.
   */
  const IdentityPrefix: string := "steamcommunity.com/openid/id/"
  const WildcardAt: nat := 14

  /** Where `$` can match: the end, or just before a final newline. */
  function End(s: string): (e: nat)
    ensures e <= |s|
  {
    if |s| > 0 && s[|s| - 1] == '\n' then |s| - 1 else |s|
  }

  /** The pattern's literal part matches at `p`. */
  predicate PrefixAt(s: string, p: nat)
  {
    p + |IdentityPrefix| <= |s|
    && forall k :: 0 <= k < |IdentityPrefix| ==>
      if k == WildcardAt then s[p + k] != '\n' else s[p + k] == IdentityPrefix[k]
  }

  /** The whole pattern matches at `p`: the literal part, then one or more digits up to where `$` holds. */
  predicate MatchAt(s: string, p: nat)
  {
    PrefixAt(s, p) && p + |IdentityPrefix| < End(s)
    && forall i :: p + |IdentityPrefix| <= i < End(s) ==> IsDigit(s[i])
  }

  /** `re.search` from position `p`: the first position at or after `p` where the pattern matches. */
  function SearchFrom(s: string, p: nat): (r: Option<nat>)
    requires p <= |s|
    ensures r.Some? ==> p <= r.value <= |s| && MatchAt(s, r.value)
    ensures r.Some? ==> forall q :: p <= q < r.value ==> !MatchAt(s, q)
    ensures r.None? ==> forall q :: p <= q <= |s| ==> !MatchAt(s, q)
    decreases |s| - p
  {
    if MatchAt(s, p) then Some(p)
    else if p == |s| then None
    else SearchFrom(s, p + 1)
  }

  /** `parse_steam_id_from_identity_url`: group 1 of the first match, or `None`. */
  function ParseSteamId(identityUrl: string): (r: Option<string>)
    ensures r.None? <==> forall q :: 0 <= q <= |identityUrl| ==> !MatchAt(identityUrl, q)
    ensures r.Some? ==> r.value != "" && AllDigits(r.value)
    ensures r.Some? ==> exists p: nat :: (MatchAt(identityUrl, p) && r.value == identityUrl[p + |IdentityPrefix|..End(identityUrl)])
  {
    match SearchFrom(identityUrl, 0)
    case None => None
    case Some(p) =>
      var id := identityUrl[p + |IdentityPrefix|..End(identityUrl)];
      assert forall i :: 0 <= i < |id| ==> id[i] == identityUrl[p + |IdentityPrefix| + i];
      Some(id)
  }

  /** The pattern matches at one position at most: a later match would put its `/` among the digits. */
  lemma MatchUnique(s: string, p: nat, q: nat)
    requires MatchAt(s, p) && MatchAt(s, q)
    ensures p == q
  {
    var k := |IdentityPrefix| - 1;
    if p < q {
      MatchDigit(s, p, q + k);
      LiteralSlash(s, q);
      assert false;
    } else if q < p {
      MatchDigit(s, q, p + k);
      LiteralSlash(s, p);
      assert false;
    }
  }

  lemma LiteralSlash(s: string, p: nat)
    requires PrefixAt(s, p)
    ensures s[p + |IdentityPrefix| - 1] == '/'
  {
    var k := |IdentityPrefix| - 1;
    assert IdentityPrefix[k] == '/' && k != WildcardAt;
  }

  lemma MatchDigit(s: string, p: nat, i: int)
    requires MatchAt(s, p) && p + |IdentityPrefix| <= i < End(s)
    ensures IsDigit(s[i])
  {
  }

  /** An identity URL ending in the prefix and a Steam ID, with or without a final newline, gives that ID. */
  lemma ParseIdentityUrl(before: string, id: string, newline: bool)
    requires id != "" && AllDigits(id)
    ensures var url := before + IdentityPrefix + id + (if newline then "\n" else "");
      ParseSteamId(url) == Some(id)
  {
    var url := before + IdentityPrefix + id + (if newline then "\n" else "");
    var p := |before|;
    UrlMatches(before, id, newline);
    var r := ParseSteamId(url);
    var q: nat :| MatchAt(url, q) && r.value == url[q + |IdentityPrefix|..End(url)];
    MatchUnique(url, p, q);
  }

  lemma UrlMatches(before: string, id: string, newline: bool)
    requires id != "" && AllDigits(id)
    ensures var url := before + IdentityPrefix + id + (if newline then "\n" else "");
      MatchAt(url, |before|) && url[|before| + |IdentityPrefix|..End(url)] == id
  {
    var url := before + IdentityPrefix + id + (if newline then "\n" else "");
    var p := |before|;
    assert End(url) == p + |IdentityPrefix| + |id|;
    assert url[p..p + |IdentityPrefix|] == IdentityPrefix;
    assert url[p + |IdentityPrefix|..End(url)] == id;
    assert forall k :: 0 <= k < |IdentityPrefix| ==> url[p + k] == IdentityPrefix[k];
    assert forall i :: p + |IdentityPrefix| <= i < End(url) ==> url[i] == id[i - p - |IdentityPrefix|];
  }

  // ---------------------------------------------------------------- Web API answers

  /** `get_current_players_count_for_app`: `response.player_count`, or `None` when either key is missing. */
  function CurrentPlayersCount(answer: map<string, map<string, int>>): (r: Option<int>)
    ensures r.None? <==> "response" !in answer || "player_count" !in answer["response"]
    ensures r.Some? ==> r.value == answer["response"]["player_count"]
  {
    if "response" !in answer || "player_count" !in answer["response"] then None
    else Some(answer["response"]["player_count"])
  }

  /** `get_user_summaries`: the first of `response.players`, or `None` when a key is missing or the list is empty. */
  function UserSummary<P>(answer: map<string, map<string, seq<P>>>): (r: Option<P>)
    ensures r.None? <==> "response" !in answer || "players" !in answer["response"] || answer["response"]["players"] == []
    ensures r.Some? ==> r.value == answer["response"]["players"][0]
  {
    if "response" !in answer || "players" !in answer["response"] || |answer["response"]["players"]| == 0 then None
    else Some(answer["response"]["players"][0])
  }
}
