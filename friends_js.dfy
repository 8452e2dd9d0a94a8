/**
 * The friends store of `static/js/friends.js` (`getFriends`, `setFriends`,
 * `addFriend`, `removeFriend`, `init`) and the add/remove toggles it drives on
 * the players-list and server-details tables.
 */
module FriendsJs {
  import opened Wrappers
  import opened Browser
  import Sorting
  import Decimal

  /** What `getFriends()` yields for the stored item: nothing stored reads as `[]`, every entry as its text. */
  function ReadFriends(item: Option<Stored>): Result<seq<string>, JsError>
  {
    match item
    case None => Success([])
    case Some(NullLiteral) => Success([])
    case Some(Array(es)) => Success(Sorting.Keys(es, ToJsString))
    case Some(EmptyText) => Failure(SyntaxError)
    case Some(Malformed) => Failure(SyntaxError)
  }

  /** What a store call returns, and the array it persists, if it persists one. */
  datatype Outcome = Outcome(result: Result<bool, JsError>, written: Option<seq<JsValue>>)

  /** The storage entries once an outcome has been persisted. */
  function Persist(items: map<string, Stored>, o: Outcome): map<string, Stored>
  {
    if o.written.Some? then items[FriendsKey := Array(o.written.value)] else items
  }

  function After(item: Option<Stored>, o: Outcome): Option<Stored>
  {
    if o.written.Some? then Some(Array(o.written.value)) else item
  }

  /** `addFriend(username)`: the raw value is compared, with `===`, against the stored texts. */
  function AddOutcome(item: Option<Stored>, works: bool, username: JsValue): Outcome
  {
    match ReadFriends(item)
    case Failure(e) => Outcome(Failure(e), None)
    case Success(fs) =>
      if InArray(username, Strs(fs)) then Outcome(Success(false), None)
      else if !works then Outcome(Failure(StorageError), None)
      else Outcome(Success(true), Some(JsSort(Strs(fs) + [username])))
  }

  /** `removeFriend(username)`: drops the entry at `indexOf(username)`. */
  function RemoveOutcome(item: Option<Stored>, works: bool, username: JsValue): Outcome
  {
    match ReadFriends(item)
    case Failure(e) => Outcome(Failure(e), None)
    case Success(fs) =>
      if !InArray(username, Strs(fs)) then Outcome(Success(false), None)
      else if !works then Outcome(Failure(StorageError), None)
      else Outcome(Success(true), Some(JsSort(SpliceOne(Strs(fs), IndexOf(username, Strs(fs))))))
  }

  /** `fs` without its first `x`. */
  function RemoveFirst(fs: seq<string>, x: string): (r: seq<string>)
    requires x in fs
    ensures multiset(r) == multiset(fs) - multiset{x}
  {
    assert fs == [fs[0]] + fs[1..];
    if fs[0] == x then fs[1..] else [fs[0]] + RemoveFirst(fs[1..], x)
  }

  /** Dropping the first `x` is dropping the element at its first index. */
  lemma {:induction false} RemoveFirstAt(fs: seq<string>, x: string, k: nat)
    requires k < |fs| && fs[k] == x && x !in fs[..k]
    ensures RemoveFirst(fs, x) == fs[..k] + fs[k + 1..]
  {
    if k > 0 {
      assert fs[0] in fs[..k];
      assert fs[1..][..k - 1] == fs[1..k];
      assert x !in fs[1..][..k - 1];
      RemoveFirstAt(fs[1..], x, k - 1);
      assert fs[..k] == [fs[0]] + fs[1..][..k - 1];
      assert fs[k + 1..] == fs[1..][k..];
    }
  }

  /** The first index of `JsStr(x)` among the stored texts is the first index of `x`. */
  lemma IndexOfStrs(fs: seq<string>, x: string)
    requires x in fs
    ensures 0 <= IndexOf(JsStr(x), Strs(fs)) < |fs|
    ensures fs[IndexOf(JsStr(x), Strs(fs))] == x
    ensures x !in fs[..IndexOf(JsStr(x), Strs(fs))]
  {
    InArrayStrs(JsStr(x), fs);
    var k := IndexOf(JsStr(x), Strs(fs));
    forall j | 0 <= j < k ensures fs[j] != x {
      assert Strs(fs)[..k][j] == JsStr(fs[j]);
    }
  }

  lemma SpliceStrs(fs: seq<string>, k: nat)
    requires k < |fs|
    ensures SpliceOne(Strs(fs), k) == Strs(fs[..k] + fs[k + 1..])
  {
    assert Strs(fs)[..k] == Strs(fs[..k]);
    assert Strs(fs)[k + 1..] == Strs(fs[k + 1..]);
    StrsAppend(fs[..k], fs[k + 1..]);
  }

  /** `splice(indexOf(x), 1)` on the stored texts is `RemoveFirst`. */
  lemma SpliceIndexOf(fs: seq<string>, x: string)
    requires x in fs
    ensures Sorting.Keys(SpliceOne(Strs(fs), IndexOf(JsStr(x), Strs(fs))), ToJsString) == RemoveFirst(fs, x)
  {
    IndexOfStrs(fs, x);
    var k := IndexOf(JsStr(x), Strs(fs));
    RemoveFirstAt(fs, x, k);
    SpliceStrs(fs, k);
    StrsKeys(fs[..k] + fs[k + 1..]);
  }

  /** Reading back a written array gives the sorted text of its entries. */
  lemma ReadWritten(es: seq<JsValue>)
    ensures ReadFriends(Some(Array(JsSort(es)))) == Success(Sorting.SortStrings(Sorting.Keys(es, ToJsString)))
  {
    Sorting.KeysSortBy(es, ToJsString);
  }

  /** `setFriends` sorts before it writes, so what is read back does not depend on insertion order. */
  lemma WriteOrderIndependent(a: seq<JsValue>, b: seq<JsValue>)
    requires multiset(a) == multiset(b)
    ensures ReadFriends(Some(Array(JsSort(a)))) == ReadFriends(Some(Array(JsSort(b))))
  {
    Sorting.SortedKeysOrderIndependent(a, b, ToJsString);
  }

  /**
   * A listed name is refused and nothing is written; otherwise the name is
   * appended and the list read back is the old one plus that name, sorted.
   */
  lemma AddFriendEffect(item: Option<Stored>, works: bool, username: JsValue)
    requires ReadFriends(item).Success?
    ensures var fs := ReadFriends(item).value;
      var o := AddOutcome(item, works, username);
      (username.JsStr? && username.s in fs ==> o == Outcome(Success(false), None))
      && (!(username.JsStr? && username.s in fs) && works ==>
            o.result == Success(true)
            && ReadFriends(After(item, o)) == Success(Sorting.SortStrings(fs + [ToJsString(username)]))
            && ToJsString(username) in ReadFriends(After(item, o)).value)
  {
    var fs := ReadFriends(item).value;
    InArrayStrs(username, fs);
    if !(username.JsStr? && username.s in fs) && works {
      AppendedReadBack(fs, username);
    }
  }

  lemma AppendedReadBack(fs: seq<string>, username: JsValue)
    ensures ReadFriends(Some(Array(JsSort(Strs(fs) + [username])))) == Success(Sorting.SortStrings(fs + [ToJsString(username)]))
    ensures ToJsString(username) in Sorting.SortStrings(fs + [ToJsString(username)])
  {
    var name := ToJsString(username);
    var es := Strs(fs) + [username];
    assert Sorting.Keys(es, ToJsString) == fs + [name] by {
      Sorting.KeysAppend(Strs(fs), [username], ToJsString);
      StrsKeys(fs);
    }
    ReadWritten(es);
    var sorted := Sorting.SortStrings(fs + [name]);
    assert name in multiset(fs + [name]);
    assert name in multiset(sorted);
  }

  /**
   * An unlisted value is refused and nothing is written; otherwise the first
   * occurrence goes and the list read back is the rest, sorted.
   */
  lemma RemoveFriendEffect(item: Option<Stored>, works: bool, username: JsValue)
    requires ReadFriends(item).Success?
    ensures var fs := ReadFriends(item).value;
      var o := RemoveOutcome(item, works, username);
      (!(username.JsStr? && username.s in fs) ==> o == Outcome(Success(false), None))
      && (username.JsStr? && username.s in fs && works ==>
            o.result == Success(true)
            && ReadFriends(After(item, o)) == Success(Sorting.SortStrings(RemoveFirst(fs, username.s))))
  {
    var fs := ReadFriends(item).value;
    InArrayStrs(username, fs);
    if username.JsStr? && username.s in fs {
      SpliceIndexOf(fs, username.s);
      ReadWritten(SpliceOne(Strs(fs), IndexOf(username, Strs(fs))));
    }
  }

  /** As long as usernames arrive as strings, add and remove never leave a duplicate behind. */
  lemma StringUsernamesKeepNoDup(item: Option<Stored>, works: bool, username: JsValue)
    requires ReadFriends(item).Success? && Sorting.NoDup(ReadFriends(item).value)
    requires username.JsStr?
    ensures ReadFriends(After(item, AddOutcome(item, works, username))).Success?
    ensures Sorting.NoDup(ReadFriends(After(item, AddOutcome(item, works, username))).value)
    ensures ReadFriends(After(item, RemoveOutcome(item, works, username))).Success?
    ensures Sorting.NoDup(ReadFriends(After(item, RemoveOutcome(item, works, username))).value)
  {
    var fs := ReadFriends(item).value;
    AddFriendEffect(item, works, username);
    RemoveFriendEffect(item, works, username);
    if username.s !in fs && works {
      Sorting.NoDupAppend(fs, username.s);
      Sorting.NoDupSubMultiset(fs + [username.s], Sorting.SortStrings(fs + [username.s]));
    }
    if username.s in fs && works {
      Sorting.NoDupSubMultiset(fs, Sorting.SortStrings(RemoveFirst(fs, username.s)));
    }
  }

  /**
   * As written, a username that jQuery turned into the number 123 is stored as a
   * number; the next add compares 123 with the text "123", misses it and stores
   * a second copy, and a remove never finds it.
   */
  lemma NumericUsernameDuplicated()
    ensures AddOutcome(None, true, JsNum(123)) == Outcome(Success(true), Some([JsNum(123)]))
    ensures ReadFriends(Some(Array([JsNum(123)]))) == Success(["123"])
    ensures AddOutcome(Some(Array([JsNum(123)])), true, JsNum(123)).result == Success(true)
    ensures ReadFriends(After(Some(Array([JsNum(123)])), AddOutcome(Some(Array([JsNum(123)])), true, JsNum(123))))
      == Success(["123", "123"])
    ensures RemoveOutcome(Some(Array([JsNum(123)])), true, JsNum(123)) == Outcome(Success(false), None)
  {
    assert Decimal.NatToString(1) == "1";
    assert Decimal.NatToString(12) == "12";
    assert Decimal.IntToString(123) == "123";
    assert Sorting.Keys([JsNum(123)], ToJsString) == ["123"];
    assert Strs(["123"]) == [JsStr("123")];
    assert JsSort([JsNum(123)]) == [JsNum(123)];
    assert Sorting.LexLe("123", "123") by { Sorting.LexLeRefl("123"); }
    assert JsSort([JsStr("123"), JsNum(123)]) == [JsStr("123"), JsNum(123)];
    assert Sorting.Keys([JsStr("123"), JsNum(123)], ToJsString) == ["123", "123"];
  }

  /** Corrected `addFriend`: compares and stores `String(username)`, as the coercion in `getFriends` intends. */
  function AddByNameOutcome(item: Option<Stored>, works: bool, username: JsValue): Outcome
  {
    match ReadFriends(item)
    case Failure(e) => Outcome(Failure(e), None)
    case Success(fs) =>
      var name := ToJsString(username);
      if name in fs then Outcome(Success(false), None)
      else if !works then Outcome(Failure(StorageError), None)
      else Outcome(Success(true), Some(JsSort(Strs(fs + [name]))))
  }

  /** Corrected `removeFriend`: looks up `String(username)`. */
  function RemoveByNameOutcome(item: Option<Stored>, works: bool, username: JsValue): Outcome
  {
    match ReadFriends(item)
    case Failure(e) => Outcome(Failure(e), None)
    case Success(fs) =>
      var name := ToJsString(username);
      if name !in fs then Outcome(Success(false), None)
      else if !works then Outcome(Failure(StorageError), None)
      else Outcome(Success(true), Some(JsSort(Strs(RemoveFirst(fs, name)))))
  }

  /**
   * With the corrected calls, whatever value a username arrives as, the list
   * read back holds it exactly when it was added, and never twice.
   */
  lemma ByNameKeepsNoDup(item: Option<Stored>, username: JsValue)
    requires ReadFriends(item).Success? && Sorting.NoDup(ReadFriends(item).value)
    ensures var added := ReadFriends(After(item, AddByNameOutcome(item, true, username)));
      added.Success? && Sorting.NoDup(added.value) && ToJsString(username) in added.value
    ensures var removed := ReadFriends(After(item, RemoveByNameOutcome(item, true, username)));
      removed.Success? && Sorting.NoDup(removed.value) && ToJsString(username) !in removed.value
  {
    var fs := ReadFriends(item).value;
    var name := ToJsString(username);
    if name !in fs {
      ReadWritten(Strs(fs + [name]));
      StrsKeys(fs + [name]);
      Sorting.NoDupAppend(fs, name);
      Sorting.NoDupSubMultiset(fs + [name], Sorting.SortStrings(fs + [name]));
      assert name in multiset(fs + [name]);
    } else {
      ReadWritten(Strs(RemoveFirst(fs, name)));
      StrsKeys(RemoveFirst(fs, name));
      var rest := Sorting.SortStrings(RemoveFirst(fs, name));
      Sorting.NoDupSubMultiset(fs, rest);
      Sorting.NoDupCount(fs);
      assert multiset(rest)[name] == 0;
    }
  }

  /** The `friendsFeature` store over the browser's `localStorage`. */
  class FriendsStore {
    const storage: LocalStorage

    constructor (storage: LocalStorage)
      ensures this.storage == storage
    {
      this.storage := storage;
    }

    /** `getFriends()`: parses the entry and rewrites every element as text. */
    method GetFriends() returns (r: Result<seq<string>, JsError>)
      ensures r == ReadFriends(storage.GetItem(FriendsKey))
      ensures storage.GetItem(FriendsKey).None? ==> r == Success([])
      ensures storage.GetItem(FriendsKey).Some? && storage.GetItem(FriendsKey).value.Array? ==>
        var es := storage.GetItem(FriendsKey).value.entries;
        r.Success? && |r.value| == |es| && forall i :: 0 <= i < |es| ==> r.value[i] == ToJsString(es[i])
    {
      var item := storage.GetItem(FriendsKey);
      match item {
        case None => return Success([]);
        case Some(NullLiteral) => return Success([]);
        case Some(EmptyText) => return Failure(SyntaxError);
        case Some(Malformed) => return Failure(SyntaxError);
        case Some(Array(es)) =>
          var friends: seq<string> := [];
          var i := 0;
          while i < |es|
            invariant 0 <= i <= |es|
            invariant friends == Sorting.Keys(es[..i], ToJsString)
          {
            friends := friends + [ToJsString(es[i])];
            i := i + 1;
          }
          assert es[..|es|] == es;
          return Success(friends);
      }
    }

    /** `setFriends(friends)`: persists the list sorted. */
    method SetFriends(friends: seq<JsValue>) returns (ok: bool)
      modifies storage
      ensures ok == storage.works && storage.works == old(storage.works)
      ensures storage.items == if ok then old(storage.items)[FriendsKey := Array(JsSort(friends))] else old(storage.items)
    {
      ok := storage.SetItem(FriendsKey, Array(JsSort(friends)));
    }

    /** `addFriend(username)` as written. */
    method AddFriend(username: JsValue) returns (r: Result<bool, JsError>)
      modifies storage
      ensures var o := AddOutcome(old(storage.GetItem(FriendsKey)), old(storage.works), username);
        r == o.result && storage.items == Persist(old(storage.items), o)
      ensures storage.works == old(storage.works)
    {
      var friends := GetFriends();
      if friends.Failure? {
        return Failure(friends.error);
      }
      var fs := Strs(friends.value);
      if InArray(username, fs) {
        return Success(false);
      }
      var ok := SetFriends(fs + [username]);
      r := if ok then Success(true) else Failure(StorageError);
    }

    /** `removeFriend(username)` as written. */
    method RemoveFriend(username: JsValue) returns (r: Result<bool, JsError>)
      modifies storage
      ensures var o := RemoveOutcome(old(storage.GetItem(FriendsKey)), old(storage.works), username);
        r == o.result && storage.items == Persist(old(storage.items), o)
      ensures storage.works == old(storage.works)
    {
      var friends := GetFriends();
      if friends.Failure? {
        return Failure(friends.error);
      }
      var fs := Strs(friends.value);
      if !InArray(username, fs) {
        return Success(false);
      }
      var ok := SetFriends(SpliceOne(fs, IndexOf(username, fs)));
      r := if ok then Success(true) else Failure(StorageError);
    }

    /** Corrected `addFriend`, comparing and storing `String(username)`. */
    method AddFriendByName(username: JsValue) returns (r: Result<bool, JsError>)
      modifies storage
      ensures var o := AddByNameOutcome(old(storage.GetItem(FriendsKey)), old(storage.works), username);
        r == o.result && storage.items == Persist(old(storage.items), o)
      ensures storage.works == old(storage.works)
    {
      var friends := GetFriends();
      if friends.Failure? {
        return Failure(friends.error);
      }
      var name := ToJsString(username);
      if name in friends.value {
        return Success(false);
      }
      var ok := SetFriends(Strs(friends.value + [name]));
      r := if ok then Success(true) else Failure(StorageError);
    }

    /** Corrected `removeFriend`, looking up `String(username)`. */
    method RemoveFriendByName(username: JsValue) returns (r: Result<bool, JsError>)
      modifies storage
      ensures var o := RemoveByNameOutcome(old(storage.GetItem(FriendsKey)), old(storage.works), username);
        r == o.result && storage.items == Persist(old(storage.items), o)
      ensures storage.works == old(storage.works)
    {
      var friends := GetFriends();
      if friends.Failure? {
        return Failure(friends.error);
      }
      var name := ToJsString(username);
      if name !in friends.value {
        return Success(false);
      }
      var ok := SetFriends(Strs(RemoveFirst(friends.value, name)));
      r := if ok then Success(true) else Failure(StorageError);
    }
  }

  /**
   * A row of a players table: its `data-username` attribute, the leaderboard
   * `notice` class, the `info` highlight, and whether each of the two links is shown.
   */
  datatype Row = Row(username: string, notice: bool, info: bool, addShown: bool, removeShown: bool)

  /** Exactly one link of the pair is shown, the remove link when `friend` holds. */
  predicate ToggleShows(row: Row, friend: bool)
  {
    row.removeShown == friend && row.addShown == !friend
  }

  /** `$.inArray($tr.data('username'), friends) !== -1` on the players-list page. */
  predicate IsListedFriend(username: string, fs: seq<string>)
  {
    InArray(DataValue(username), Strs(fs))
  }

  /** The membership test sees a listed name unless jQuery turned it into a number. */
  lemma IsListedFriendText(username: string, fs: seq<string>)
    ensures IsListedFriend(username, fs) <==> username in fs && DataValue(username).JsStr?
  {
    InArrayStrs(DataValue(username), fs);
  }

  /** Initial state of a players-list row. */
  function ListRowInit(row: Row, fs: seq<string>): (r: Row)
    ensures r.username == row.username && r.notice == row.notice
    ensures !row.addShown && !row.removeShown ==> ToggleShows(r, IsListedFriend(row.username, fs))
    ensures r.info == (row.info || (IsListedFriend(row.username, fs) && !row.notice))
  {
    if IsListedFriend(row.username, fs) then row.(info := row.info || !row.notice, removeShown := true)
    else row.(addShown := true)
  }

  /** A click on the add link of a players-list row; the `info` class is set unless `notice` already highlights it. */
  function ListRowAdded(row: Row): (r: Row)
    ensures ToggleShows(r, true) && r.info == (row.info || !row.notice)
  {
    row.(addShown := false, removeShown := true, info := row.info || !row.notice)
  }

  /** A click on the remove link of either table. */
  function RowRemoved(row: Row): (r: Row)
    ensures ToggleShows(r, false) && !r.info
  {
    row.(addShown := true, removeShown := false, info := false)
  }

  /** Initial state of a server-details row whose player is on the server. */
  function DetailsRowInit(row: Row, friend: bool): (r: Row)
    ensures r.username == row.username
    ensures !row.addShown && !row.removeShown ==> ToggleShows(r, friend)
    ensures friend ==> r.info
  {
    if friend then row.(info := true, removeShown := true) else row.(addShown := true)
  }

  /** A click on the add link of a server-details row. */
  function DetailsRowAdded(row: Row): (r: Row)
    ensures ToggleShows(r, true) && r.info
  {
    row.(addShown := false, removeShown := true, info := true)
  }

  function InitListRows(rows: seq<Row>, fs: seq<string>): (r: seq<Row>)
    ensures |r| == |rows| && forall i :: 0 <= i < |rows| ==> r[i] == ListRowInit(rows[i], fs)
  {
    seq(|rows|, i requires 0 <= i < |rows| => ListRowInit(rows[i], fs))
  }

  /** The rows once every player of the server's list has been looked up in the friends list. */
  function InitDetailsRows(rows: seq<Row>, players: seq<string>, fs: seq<string>): (r: seq<Row>)
    ensures |r| == |rows|
    ensures forall i :: 0 <= i < |rows| ==>
      r[i] == if rows[i].username in players then DetailsRowInit(rows[i], rows[i].username in fs) else rows[i]
  {
    seq(|rows|, i requires 0 <= i < |rows| =>
      if rows[i].username in players then DetailsRowInit(rows[i], rows[i].username in fs) else rows[i])
  }

  /** Index of the first server with the given address, where `$.each` stops. */
  function FirstServerAt(servers: seq<ServerPlayers>, ipAndPort: string): (k: Option<nat>)
    ensures k.Some? ==> k.value < |servers| && servers[k.value].ipAndPort == ipAndPort
    ensures k.Some? ==> forall j :: 0 <= j < k.value ==> servers[j].ipAndPort != ipAndPort
    ensures k.None? ==> forall j :: 0 <= j < |servers| ==> servers[j].ipAndPort != ipAndPort
  {
    if servers == [] then None
    else if servers[0].ipAndPort == ipAndPort then Some(0)
    else
      match FirstServerAt(servers[1..], ipAndPort)
      case None => None
      case Some(k) => Some(k + 1)
  }

  /** The server-details rows once the players of the first server at `current` are marked. */
  function DetailsRows(rows: seq<Row>, servers: seq<ServerPlayers>, current: string, fs: seq<string>): (r: seq<Row>)
    ensures |r| == |rows|
    ensures (forall j :: 0 <= j < |servers| ==> servers[j].ipAndPort != current) ==> r == rows
  {
    match FirstServerAt(servers, current)
    case None => rows
    case Some(k) => InitDetailsRows(rows, servers[k].players, fs)
  }

  /**
   * After a successful click on a players-list add link, the row's toggle agrees
   * with the stored list, provided the username is not numeric text.
   */
  lemma AddClickAgrees(item: Option<Stored>, row: Row)
    requires ReadFriends(item).Success?
    requires DataValue(row.username).JsStr?
    ensures var o := AddOutcome(item, true, DataValue(row.username));
      o.result.Success? && ReadFriends(After(item, o)).Success?
      && ToggleShows(ListRowAdded(row), IsListedFriend(row.username, ReadFriends(After(item, o)).value))
  {
    var u := DataValue(row.username);
    AddFriendEffect(item, true, u);
    var o := AddOutcome(item, true, u);
    IsListedFriendText(row.username, ReadFriends(After(item, o)).value);
  }

  /**
   * After a successful click on a remove link, the row's toggle agrees with the
   * stored list, provided the list had no duplicate.
   */
  lemma RemoveClickAgrees(item: Option<Stored>, row: Row)
    requires ReadFriends(item).Success? && Sorting.NoDup(ReadFriends(item).value)
    requires DataValue(row.username).JsStr?
    ensures var o := RemoveOutcome(item, true, DataValue(row.username));
      o.result.Success? && ReadFriends(After(item, o)).Success?
      && ToggleShows(RowRemoved(row), IsListedFriend(row.username, ReadFriends(After(item, o)).value))
  {
    var fs := ReadFriends(item).value;
    var u := DataValue(row.username);
    RemoveFriendEffect(item, true, u);
    var o := RemoveOutcome(item, true, u);
    IsListedFriendText(row.username, ReadFriends(After(item, o)).value);
    if u.s in fs {
      var rest := Sorting.SortStrings(RemoveFirst(fs, u.s));
      Sorting.NoDupCount(fs);
      assert multiset(rest)[u.s] == 0;
    }
  }

  /** The `$.each` loop of `initOnPlayersList` over the table rows. */
  method MarkListRows(rows: seq<Row>, fs: seq<string>) returns (updated: seq<Row>)
    ensures updated == InitListRows(rows, fs)
  {
    updated := rows;
    var i := 0;
    while i < |updated|
      invariant 0 <= i <= |updated| == |rows|
      invariant forall j :: 0 <= j < i ==> updated[j] == ListRowInit(rows[j], fs)
      invariant forall j :: i <= j < |updated| ==> updated[j] == rows[j]
    {
      updated := updated[i := ListRowInit(updated[i], fs)];
      i := i + 1;
    }
  }

  /** The nested loops of `initOnServerDetails`: for each player of the server, the rows with that username. */
  method MarkDetailsRows(rows: seq<Row>, players: seq<string>, fs: seq<string>) returns (updated: seq<Row>)
    ensures updated == InitDetailsRows(rows, players, fs)
  {
    updated := rows;
    var p := 0;
    while p < |players|
      invariant 0 <= p <= |players|
      invariant updated == InitDetailsRows(rows, players[..p], fs)
    {
      var player := players[p];
      var friend := player in fs;
      var j := 0;
      ghost var before := updated;
      while j < |updated|
        invariant 0 <= j <= |updated| == |before|
        invariant forall q :: 0 <= q < j ==>
          updated[q] == if before[q].username == player then DetailsRowInit(before[q], friend) else before[q]
        invariant forall q :: j <= q < |updated| ==> updated[q] == before[q]
      {
        if updated[j].username == player {
          updated := updated[j := DetailsRowInit(updated[j], friend)];
        }
        j := j + 1;
      }
      assert players[..p + 1] == players[..p] + [player];
      p := p + 1;
    }
    assert players[..|players|] == players;
  }

  /** A page with a players table (`initOnPlayersList`, `initOnServerDetails`) and its click handlers. */
  class PlayersTablePage {
    const store: FriendsStore
    var manageLinkShown: bool
    var featureShown: bool
    var rows: seq<Row>

    constructor (store: FriendsStore, rows: seq<Row>)
      ensures this.store == store && this.rows == rows
      ensures !manageLinkShown && !featureShown
    {
      this.store := store;
      this.rows := rows;
      manageLinkShown := false;
      featureShown := false;
    }

    /** `init()`: false, with nothing shown, when storage is unsupported; otherwise the manage link appears. */
    method Init() returns (ok: bool)
      modifies this`manageLinkShown, store.storage
      ensures ok == old(store.storage.works)
      ensures manageLinkShown == (old(manageLinkShown) || ok)
      ensures store.storage.works == old(store.storage.works)
      ensures store.storage.GetItem(FriendsKey) == old(store.storage.GetItem(FriendsKey))
    {
      ok := store.storage.IsSupported();
      if ok {
        manageLinkShown := true;
      }
    }

    /** `initOnPlayersList()`: each row shows the remove link when listed, the add link otherwise. */
    method InitOnPlayersList() returns (r: Result<(), JsError>)
      modifies this, store.storage
      ensures store.storage.works == old(store.storage.works)
      ensures store.storage.GetItem(FriendsKey) == old(store.storage.GetItem(FriendsKey))
      ensures featureShown == old(featureShown)
      ensures !old(store.storage.works) ==> r == Success(()) && rows == old(rows) && manageLinkShown == old(manageLinkShown)
      ensures old(store.storage.works) && ReadFriends(old(store.storage.GetItem(FriendsKey))).Failure? ==>
        r == Failure(ReadFriends(old(store.storage.GetItem(FriendsKey))).error) && rows == old(rows)
      ensures old(store.storage.works) && ReadFriends(old(store.storage.GetItem(FriendsKey))).Success? ==>
        r == Success(()) && rows == InitListRows(old(rows), ReadFriends(old(store.storage.GetItem(FriendsKey))).value)
    {
      var ok := Init();
      if !ok {
        return Success(());
      }
      var friends := store.GetFriends();
      if friends.Failure? {
        return Failure(friends.error);
      }
      rows := MarkListRows(rows, friends.value);
      r := Success(());
    }

    /** The add-link handler of the players-list page. */
    method ClickAddOnPlayersList(i: nat) returns (r: Result<bool, JsError>)
      requires i < |rows|
      modifies this`rows, store.storage
      ensures var o := AddOutcome(old(store.storage.GetItem(FriendsKey)), old(store.storage.works), DataValue(old(rows)[i].username));
        r == o.result && store.storage.items == Persist(old(store.storage.items), o)
      ensures rows == if r.Success? then old(rows)[i := ListRowAdded(old(rows)[i])] else old(rows)
      ensures store.storage.works == old(store.storage.works)
    {
      r := store.AddFriend(DataValue(rows[i].username));
      if r.Success? {
        rows := rows[i := ListRowAdded(rows[i])];
      }
    }

    /** The remove-link handler of the players-list page. */
    method ClickRemoveOnPlayersList(i: nat) returns (r: Result<bool, JsError>)
      requires i < |rows|
      modifies this`rows, store.storage
      ensures var o := RemoveOutcome(old(store.storage.GetItem(FriendsKey)), old(store.storage.works), DataValue(old(rows)[i].username));
        r == o.result && store.storage.items == Persist(old(store.storage.items), o)
      ensures rows == if r.Success? then old(rows)[i := RowRemoved(old(rows)[i])] else old(rows)
      ensures store.storage.works == old(store.storage.works)
    {
      r := store.RemoveFriend(DataValue(rows[i].username));
      if r.Success? {
        rows := rows[i := RowRemoved(rows[i])];
      }
    }

    /**
     * `initOnServerDetails()`: the rows of the players on the current server are
     * highlighted and show the remove link when listed, the add link otherwise.
     */
    method InitOnServerDetails(servers: seq<ServerPlayers>, current: string) returns (r: Result<(), JsError>)
      modifies this, store.storage
      ensures store.storage.works == old(store.storage.works)
      ensures store.storage.GetItem(FriendsKey) == old(store.storage.GetItem(FriendsKey))
      ensures !old(store.storage.works) ==> r == Success(()) && rows == old(rows) && featureShown == old(featureShown)
      ensures old(store.storage.works) ==> featureShown
      ensures old(store.storage.works) && ReadFriends(old(store.storage.GetItem(FriendsKey))).Failure? ==>
        r == Failure(ReadFriends(old(store.storage.GetItem(FriendsKey))).error) && rows == old(rows)
      ensures old(store.storage.works) && ReadFriends(old(store.storage.GetItem(FriendsKey))).Success? ==>
        r == Success(()) && rows == DetailsRows(old(rows), servers, current, ReadFriends(old(store.storage.GetItem(FriendsKey))).value)
    {
      var ok := Init();
      if !ok {
        return Success(());
      }
      featureShown := true;
      var friends := store.GetFriends();
      if friends.Failure? {
        return Failure(friends.error);
      }
      var k := 0;
      while k < |servers| && servers[k].ipAndPort != current
        invariant 0 <= k <= |servers|
        invariant forall j :: 0 <= j < k ==> servers[j].ipAndPort != current
      {
        k := k + 1;
      }
      if k == |servers| {
        return Success(());
      }
      rows := MarkDetailsRows(rows, servers[k].players, friends.value);
      r := Success(());
    }

    /** The add-link handler of the server-details page. */
    method ClickAddOnServerDetails(i: nat) returns (r: Result<bool, JsError>)
      requires i < |rows|
      modifies this`rows, store.storage
      ensures var o := AddOutcome(old(store.storage.GetItem(FriendsKey)), old(store.storage.works), DataValue(old(rows)[i].username));
        r == o.result && store.storage.items == Persist(old(store.storage.items), o)
      ensures rows == if r.Success? then old(rows)[i := DetailsRowAdded(old(rows)[i])] else old(rows)
      ensures store.storage.works == old(store.storage.works)
    {
      r := store.AddFriend(DataValue(rows[i].username));
      if r.Success? {
        rows := rows[i := DetailsRowAdded(rows[i])];
      }
    }

    /** The remove-link handler of the server-details page. */
    method ClickRemoveOnServerDetails(i: nat) returns (r: Result<bool, JsError>)
      requires i < |rows|
      modifies this`rows, store.storage
      ensures var o := RemoveOutcome(old(store.storage.GetItem(FriendsKey)), old(store.storage.works), DataValue(old(rows)[i].username));
        r == o.result && store.storage.items == Persist(old(store.storage.items), o)
      ensures rows == if r.Success? then old(rows)[i := RowRemoved(old(rows)[i])] else old(rows)
      ensures store.storage.works == old(store.storage.works)
    {
      r := store.RemoveFriend(DataValue(rows[i].username));
      if r.Success? {
        rows := rows[i := RowRemoved(rows[i])];
      }
    }
  }
}
