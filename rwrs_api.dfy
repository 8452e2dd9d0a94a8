/**
 * `rwrs/api/__init__.py`: the guards of the public API. The request's
 * `Authorization` header is `None` when absent; `g.UNDER_MAINTENANCE`
 * and the remote address are inputs. `uuid.UUID` is the parameter
 * `parseUuid` (a 128-bit value, or `None` where it raises `ValueError`),
 * and the user table is a sequence of objects searched in order.
 * Instants are integer microseconds.
 */
module RwrsApi {
  import opened Wrappers
  import Text
  import Models

  const HttpAuthScheme := "Token"

  /** What `check_under_maintenance` does: abort the request, or call the view. */
  datatype Gate = Abort(code: int, message: string) | Proceed

  /** `check_under_maintenance`. */
  function CheckUnderMaintenance(underMaintenance: bool): (r: Gate)
    ensures r.Abort? <==> underMaintenance
    ensures r.Abort? ==> r.code == 503 && r.message == "Maintenance in progress"
  {
    if underMaintenance then Abort(503, "Maintenance in progress") else Proceed
  }

  /** `get_current_pat`: the stripped text after `"Token "`, or `''`. */
  function CurrentPat(authHeader: Option<string>): (r: string)
    ensures authHeader.None? || authHeader.value == "" ==> r == ""
    ensures r != "" ==> exists rest :: authHeader == Some(HttpAuthScheme + " " + rest) && r == Text.Strip(rest)
  {
    if authHeader.None? || authHeader.value == "" then ""
    else
      match Text.SplitFirst(authHeader.value, ' ')
      case None => ""
      case Some((scheme, rest)) =>
        if scheme != HttpAuthScheme then ""
        else
          assert authHeader.value == HttpAuthScheme + " " + rest;
          Text.Strip(rest)
  }

  /** A header made of the scheme, a space and a token gives the token, stripped. */
  lemma CurrentPatOfToken(token: string)
    ensures CurrentPat(Some(HttpAuthScheme + " " + token)) == Text.Strip(token)
  {
    SplitFirstAt(HttpAuthScheme, ' ', token);
  }

  /** A header that does not open with the scheme and a space gives no token. */
  lemma CurrentPatOtherScheme(header: string)
    requires !Text.StartsWith(header, HttpAuthScheme + " ")
    ensures CurrentPat(Some(header)) == ""
  {
    var r := CurrentPat(Some(header));
    if r != "" {
      assert false;
    }
  }

  /** `rate_limiter_key_func`: `'|'.join` of the remote address and the PAT, two parts, one separator. */
  function RateLimiterKey(remoteAddress: string, authHeader: Option<string>): (r: string)
    ensures Text.StartsWith(r, remoteAddress + "|")
  {
    var key := remoteAddress + "|" + CurrentPat(authHeader);
    assert key[..|remoteAddress| + 1] == remoteAddress + "|";
    key
  }

  /** An address without `'|'` is recovered, with the PAT, from its key. */
  lemma RateLimiterKeySplits(remoteAddress: string, authHeader: Option<string>)
    requires '|' !in remoteAddress
    ensures Text.SplitFirst(RateLimiterKey(remoteAddress, authHeader), '|') == Some((remoteAddress, CurrentPat(authHeader)))
  {
    SplitFirstAt(remoteAddress, '|', CurrentPat(authHeader));
  }

  /** Splitting at the first separator undoes joining with it when the first part lacks it. */
  lemma SplitFirstAt(a: string, sep: char, b: string)
    requires sep !in a
    ensures Text.SplitFirst(a + [sep] + b, sep) == Some((a, b))
  {
    var s := a + [sep] + b;
    Text.FindCharAfterFree(a, sep, b);
    assert s[..|a|] == a;
    assert s[|a| + 1..] == b;
  }

  /** A row of the users table, as far as the API sees it. */
  class ApiUser {
    var pat: int
    var apiLastCalledAt: Option<int>

    constructor (pat: int)
      ensures this.pat == pat && apiLastCalledAt.None?
    {
      this.pat := pat;
      apiLastCalledAt := None;
    }
  }

  /** `User.query.filter(User.pat == pat).first()`: the index of the first user holding the PAT. */
  function FirstWithPat(users: seq<ApiUser>, pat: int): (r: Option<nat>)
    reads users
    ensures r.Some? ==> r.value < |users| && users[r.value].pat == pat
    ensures r.Some? ==> forall j :: 0 <= j < r.value ==> users[j].pat != pat
    ensures r.None? <==> forall i :: 0 <= i < |users| ==> users[i].pat != pat
  {
    if users == [] then None
    else if users[0].pat == pat then Some(0)
    else
      var rest := FirstWithPat(users[1..], pat);
      assert forall i :: 1 <= i < |users| ==> users[i] == users[1..][i - 1];
      if rest.None? then None else Some(rest.value + 1)
  }

  /**
   * `verify_token`: `None` for an empty token, one `uuid.UUID` rejects, or
   * one nobody holds; otherwise the holder, stamped with the current
   * second.
   */
  method VerifyToken(token: string, parseUuid: string -> Option<int>, users: seq<ApiUser>, now: int) returns (r: Option<ApiUser>)
    modifies users
    ensures token == "" || parseUuid(token).None? ==> r.None?
    ensures token != "" && parseUuid(token).Some? ==>
      match old(FirstWithPat(users, parseUuid(token).value))
      case None => r.None?
      case Some(k) => r == Some(users[k]) && users[k].apiLastCalledAt == Some(Models.FloorTo(now, Models.MicrosPerSecond))
    ensures forall u :: u in users ==> u.pat == old(u.pat)
    ensures forall u :: u in users && Some(u) != r ==> u.apiLastCalledAt == old(u.apiLastCalledAt)
  {
    if token == "" {
      return None;
    }
    var pat := parseUuid(token);
    if pat.None? {
      return None;
    }
    var found := FirstWithPat(users, pat.value);
    if found.None? {
      return None;
    }
    var user := users[found.value];
    user.apiLastCalledAt := Some(Models.FloorTo(now, Models.MicrosPerSecond));
    return Some(user);
  }
}
