/**
 * The browser-side values the friends feature works with: JavaScript values as
 * jQuery hands them over, the `friends` entry of `localStorage`, and the
 * `isLocalStorageSupported` probe.
 */
module Browser {
  import opened Wrappers
  import Decimal
  import Sorting

  /**
   * The JavaScript values a username can arrive as: a string, or a number when
   * jQuery's `.data()` converted it. Only integral numbers are modelled.
   */
  datatype JsValue = JsStr(s: string) | JsNum(n: int)

  /** `v + ''`, i.e. `String(v)`. */
  function ToJsString(v: JsValue): string
  {
    match v
    case JsStr(s) => s
    case JsNum(n) => Decimal.IntToString(n)
  }

  /** 2^53: every integer of at most this magnitude is a double that prints back as its own digits. */
  const MaxExact: int := 0x20_0000_0000_0000

  /**
   * jQuery's `.data('username')` on a username attribute: the text becomes a
   * number when converting it to a number and back gives the same text. For
   * integer texts the model takes those of magnitude at most `MaxExact`; other
   * text stays a string.
   */
  function DataValue(attr: string): (v: JsValue)
    ensures ToJsString(v) == attr
  {
    match Decimal.ParseInt(attr)
    case Some(n) => if Decimal.IntToString(n) == attr && -MaxExact <= n <= MaxExact then JsNum(n) else JsStr(attr)
    case None => JsStr(attr)
  }

  /** `.data()` yields a number exactly when the attribute is the decimal text of an integer a double holds exactly. */
  lemma DataValueNumeric(attr: string)
    ensures DataValue(attr).JsNum? <==> exists n :: -MaxExact <= n <= MaxExact && Decimal.IntToString(n) == attr
  {
    if exists n :: -MaxExact <= n <= MaxExact && Decimal.IntToString(n) == attr {
      var n :| -MaxExact <= n <= MaxExact && Decimal.IntToString(n) == attr;
      Decimal.IntToStringRoundTrip(n);
    }
  }

  /** A JavaScript array of strings. */
  function Strs(fs: seq<string>): (r: seq<JsValue>)
    ensures |r| == |fs| && forall i :: 0 <= i < |fs| ==> r[i] == JsStr(fs[i])
  {
    seq(|fs|, i requires 0 <= i < |fs| => JsStr(fs[i]))
  }

  lemma StrsKeys(fs: seq<string>)
    ensures Sorting.Keys(Strs(fs), ToJsString) == fs
  {
  }

  lemma StrsAppend(a: seq<string>, b: seq<string>)
    ensures Strs(a + b) == Strs(a) + Strs(b)
  {
  }

  /** `$.inArray(v, s) !== -1`, which compares with strict equality: a number never equals a string. */
  predicate InArray(v: JsValue, s: seq<JsValue>)
  {
    v in s
  }

  lemma InArrayStrs(v: JsValue, fs: seq<string>)
    ensures InArray(v, Strs(fs)) <==> v.JsStr? && v.s in fs
  {
    if v.JsStr? && v.s in fs {
      var i :| 0 <= i < |fs| && fs[i] == v.s;
      assert Strs(fs)[i] == v;
    }
  }

  /** `s.indexOf(v)`. */
  function IndexOf(v: JsValue, s: seq<JsValue>): (k: int)
    ensures -1 <= k < |s|
    ensures k == -1 <==> v !in s
    ensures k >= 0 ==> s[k] == v && v !in s[..k]
  {
    if s == [] then -1
    else if s[0] == v then 0
    else
      var k := IndexOf(v, s[1..]);
      if k == -1 then -1 else k + 1
  }

  /** `s.splice(start, 1)`: a negative start counts from the end, as in JavaScript. */
  function SpliceOne<T>(s: seq<T>, start: int): (r: seq<T>)
    ensures 0 <= start < |s| ==> r == s[..start] + s[start + 1..]
    ensures start == -1 && s != [] ==> r == s[..|s| - 1]
  {
    var k := if start >= 0 then start else if |s| + start < 0 then 0 else |s| + start;
    if k < |s| then s[..k] + s[k + 1..] else s
  }

  /** The default `Array.prototype.sort()`: ascending by `String(v)`, stable. */
  function JsSort(s: seq<JsValue>): (r: seq<JsValue>)
    ensures multiset(r) == multiset(s) && Sorting.SortedBy(r, ToJsString)
  {
    Sorting.SortByPermutation(s, ToJsString);
    Sorting.SortBy(s, ToJsString)
  }

  /** One entry of `all_players_with_servers_details`: a server's address and the names on its player list. */
  datatype ServerPlayers = ServerPlayers(ipAndPort: string, players: seq<string>)

  /**
   * The stored texts the model distinguishes, seen through `JSON.parse`. The
   * scripts only ever store an array of usernames; other JSON values are not
   * modelled.
   */
  datatype Stored =
    | Array(entries: seq<JsValue>)  // a JSON array of strings and numbers
    | NullLiteral                   // the text "null"
    | EmptyText                     // the empty text, which `JSON.parse` refuses
    | Malformed                     // any other text `JSON.parse` refuses

  datatype JsError = SyntaxError | TypeError | StorageError

  const FriendsKey := "friends"

  /** `localStorage`; `works` is false where it refuses writes (private browsing, storage disabled). */
  class LocalStorage {
    var works: bool
    var items: map<string, Stored>

    constructor (works: bool, items: map<string, Stored>)
      ensures this.works == works && this.items == items
    {
      this.works := works;
      this.items := items;
    }

    /** `localStorage.getItem(key)`; `None` stands for `null`. */
    function GetItem(key: string): (r: Option<Stored>)
      reads this
      ensures r.Some? <==> key in items
    {
      if key in items then Some(items[key]) else None
    }

    /** `localStorage.setItem(key, v)`; `ok` is false when it throws. */
    method SetItem(key: string, v: Stored) returns (ok: bool)
      modifies this
      ensures ok == works && works == old(works)
      ensures items == if ok then old(items)[key := v] else old(items)
    {
      ok := works;
      if ok {
        items := items[key := v];
      }
    }

    /** `localStorage.removeItem(key)`; `ok` is false when it throws. */
    method RemoveItem(key: string) returns (ok: bool)
      modifies this
      ensures ok == works && works == old(works)
      ensures items == if ok then old(items) - {key} else old(items)
    {
      ok := works;
      if ok {
        items := items - {key};
      }
    }

    /**
     * `isLocalStorageSupported()`: a trial `setItem('test', 'test')` then
     * `removeItem('test')`; any exception gives false. The `friends` entry is never touched.
     */
    method IsSupported() returns (ok: bool)
      modifies this
      ensures ok == works && works == old(works)
      ensures items == if ok then old(items) - {"test"} else old(items)
      ensures GetItem(FriendsKey) == old(GetItem(FriendsKey))
    {
      var stored := SetItem("test", Malformed);
      if !stored {
        return false;
      }
      ok := RemoveItem("test");
    }
  }
}
