/**
 * `rwrs/models.py`: the rules the database models add on top of their
 * rows. The database is a set of inputs: the stored variable values, the
 * stored friend usernames of a user and the stored RWR accounts; the
 * changes a method queues on the session are what it returns or the new
 * field values.
 */
module RwrsModels {
  import opened Wrappers
  import opened Decimal
  import opened PyValues
  import Text
  import Sorting
  import RwrServer
  import RwrPlayer

  // ---------------------------------------------------------------- Variable

  /** `VariableType`; `FLOAT`, `ARROW` and `JSON` variables are not part of this model. */
  datatype VariableType = IntegerType | StringType | BoolType

  /** What the `value` setter stores: the type tag and `_value`; a `ValueError` for a type it does not handle. */
  function Encode(value: PyValue): (r: Result<(VariableType, PyValue), ConversionError>)
    ensures r.Failure? <==> value.PyList? && value.length > 0
    ensures r.Success? && r.value.0 == StringType ==> r.value.1 == value
    ensures r.Success? ==> r.value.0 != BoolType
  {
    if Truthy(value) && !value.PyStr? then
      if IsInstanceInt(value) then Success((IntegerType, PyStr(IntText(value))))
      else Failure(ValueError)
    else Success((StringType, value))
  }

  /** What the `value` getter returns for a type tag and a stored `_value`. */
  function Decode(varType: VariableType, stored: PyValue): (r: Result<PyValue, ConversionError>)
    ensures !Truthy(stored) || varType == StringType ==> r == Success(stored)
  {
    if Truthy(stored) && varType != StringType then
      match IntOf(stored)
      case Failure(e) => Failure(e)
      case Success(i) => Success(if varType == IntegerType then PyInt(i) else PyBool(i != 0))
    else Success(stored)
  }

  /** A non-zero integer is tagged `INTEGER`, stored as its decimal text, and reads back as itself. */
  lemma IntegerRoundTrip(i: int)
    requires i != 0
    ensures Encode(PyInt(i)) == Success((IntegerType, PyStr(IntToString(i))))
    ensures Decode(IntegerType, PyStr(IntToString(i))) == Success(PyInt(i))
  {
    IntToStringRoundTrip(i);
    assert IntOf(PyStr(IntToString(i))) == Success(i);
    assert Truthy(PyStr(IntToString(i))) && Truthy(PyInt(i));
  }

  /** Strings and falsy values are tagged `STRING`, stored as they are, and read back unchanged. */
  lemma RawRoundTrip(value: PyValue)
    requires value.PyStr? || !Truthy(value)
    ensures Encode(value) == Success((StringType, value))
    ensures Decode(StringType, value) == Success(value)
  {
  }

  /** `True` is an `int` to `isinstance`: it is tagged `INTEGER` as the text `"True"`, which the getter cannot read back. */
  lemma TrueAsWritten()
    ensures Encode(PyBool(true)) == Success((IntegerType, PyStr("True")))
    ensures Decode(IntegerType, PyStr("True")) == Failure(ValueError)
  {
    BoolTextNotInt(true);
  }

  /** The setter with `bool` tested before `int`, so that its `BOOL` branch (`str(int(value))`) is reached. */
  function EncodeChecked(value: PyValue): (r: Result<(VariableType, PyValue), ConversionError>)
    ensures r.Failure? <==> value.PyList? && value.length > 0
    ensures value == PyBool(true) ==> r.Success? && r.value.0 == BoolType
  {
    if Truthy(value) && !value.PyStr? then
      if value.PyBool? then Success((BoolType, PyStr(IntText(PyInt(if value.b then 1 else 0)))))
      else if value.PyInt? then Success((IntegerType, PyStr(IntText(value))))
      else Failure(ValueError)
    else Success((StringType, value))
  }

  /** With `bool` tested first, `True` is stored as `"1"` and reads back as `True`. */
  lemma CheckedTrueRoundTrip()
    ensures EncodeChecked(PyBool(true)).Success?
    ensures Decode(EncodeChecked(PyBool(true)).value.0, EncodeChecked(PyBool(true)).value.1) == Success(PyBool(true))
  {
    IntToStringRoundTrip(1);
    assert IntOf(PyStr(IntToString(1))) == Success(1);
  }

  /** With `bool` tested first, every value the setter accepts reads back as itself. */
  lemma CheckedRoundTrip(value: PyValue)
    requires EncodeChecked(value).Success?
    ensures Decode(EncodeChecked(value).value.0, EncodeChecked(value).value.1) == Success(value)
  {
    if value == PyBool(true) {
      CheckedTrueRoundTrip();
    } else if value.PyInt? && value.i != 0 {
      IntegerRoundTrip(value.i);
    } else {
      RawRoundTrip(value);
    }
  }

  /** A stored variable: its name, type tag and `_value`. */
  class Variable {
    var name: string
    var varType: VariableType
    var stored: PyValue

    /** A new variable has no value; its unset type reads like `STRING` since `_value` is `None`. */
    constructor (name: string)
      ensures this.name == name && varType == StringType && stored == PyNone
    {
      this.name := name;
      varType := StringType;
      stored := PyNone;
    }

    /** The `value` getter. */
    function Value(): (r: Result<PyValue, ConversionError>)
      reads this
      ensures r == Decode(varType, stored)
    {
      Decode(varType, stored)
    }

    /**
     * The `value` setter, with the `bool` test moved before the `int` test
     * (`EncodeChecked`): a `ValueError` leaves both fields as they were, and
     * whatever is accepted is read back as itself.
     */
    method SetValue(value: PyValue) returns (r: Result<(), ConversionError>)
      modifies this
      ensures name == old(name)
      ensures r.Failure? <==> EncodeChecked(value).Failure?
      ensures r.Failure? ==> varType == old(varType) && stored == old(stored)
      ensures r.Success? ==> (varType, stored) == EncodeChecked(value).value
      ensures r.Success? ==> Value() == Success(value)
    {
      if Truthy(value) && !value.PyStr? {
        if value.PyBool? {
          varType := BoolType;
          stored := PyStr(IntText(PyInt(if value.b then 1 else 0)));
        } else if value.PyInt? {
          varType := IntegerType;
          stored := PyStr(IntText(value));
        } else {
          return Failure(ValueError);
        }
      } else {
        varType := StringType;
        stored := value;
      }
      CheckedRoundTrip(value);
      return Success(());
    }
  }

  // ---------------------------------------------------------------- get_peaks_for_display

  const PeakNames: seq<string> := [
    "total_players_peak_count", "total_players_peak_date",
    "online_players_peak_count", "online_players_peak_date",
    "online_servers_peak_count", "online_servers_peak_date",
    "active_servers_peak_count", "active_servers_peak_date"
  ]

  /** How one peak is shown: `'?'` when it is not stored, a date formatted, a count as stored. */
  function PeakShown<T>(values: map<string, T>, unknown: T, formatDate: T -> T, name: string): T
  {
    if name !in values then unknown
    else if Text.EndsWith(name, "_date") then formatDate(values[name])
    else values[name]
  }

  lemma PeakNamesDistinct()
    ensures forall i, j :: 0 <= i < j < |PeakNames| ==> PeakNames[i] != PeakNames[j]
  {
  }

  /**
   * `Variable.get_peaks_for_display`: the stored values of the eight peak
   * variables (`values`, what `get_many_values` found), completed with
   * `'?'` (`unknown`) and with the dates formatted (`formatDate`).
   */
  method PeaksForDisplay<T>(values: map<string, T>, unknown: T, formatDate: T -> T) returns (peaks: map<string, T>)
    ensures forall name :: name in peaks <==> name in values || name in PeakNames
    ensures forall name :: name in PeakNames ==> peaks[name] == PeakShown(values, unknown, formatDate, name)
    ensures forall name :: name in values && name !in PeakNames ==> peaks[name] == values[name]
  {
    PeakNamesDistinct();
    peaks := values;
    for i := 0 to |PeakNames|
      invariant forall name :: name in peaks <==> name in values || name in PeakNames[..i]
      invariant forall j :: 0 <= j < i ==> peaks[PeakNames[j]] == PeakShown(values, unknown, formatDate, PeakNames[j])
      invariant forall name :: name in values && name !in PeakNames[..i] ==> peaks[name] == values[name]
    {
      var name := PeakNames[i];
      assert PeakNames[..i + 1] == PeakNames[..i] + [name];
      if name !in peaks {
        peaks := peaks[name := unknown];
      } else if Text.EndsWith(name, "_date") {
        peaks := peaks[name := formatDate(peaks[name])];
      }
    }
    assert PeakNames[..|PeakNames|] == PeakNames;
  }

  // ---------------------------------------------------------------- RwrAccount.hash

  const HashModulus: nat := 0x1_0000_0000

  /** The djb2 hash of a username, kept to 32 bits after every character (`& 0xFFFFFFFF` on a non-negative number). */
  function HashOf(s: string): (h: nat)
    ensures h < HashModulus
  {
    if s == [] then 5381 else (HashOf(s[..|s| - 1]) * 33 + s[|s| - 1] as int) % HashModulus
  }

  /** `RwrAccount.hash`: `ret = ((ret << 5) + ret) + ord(x)` masked to 32 bits, for each character. */
  method Hash(username: string) returns (ret: nat)
    ensures ret == HashOf(username) && ret < HashModulus
  {
    ret := 5381;
    for i := 0 to |username|
      invariant ret == HashOf(username[..i])
    {
      assert username[..i + 1][..i] == username[..i];
      ret := ((ret * 32) + ret + username[i] as int) % HashModulus;
    }
    assert username[..|username|] == username;
  }

  /** djb2 without the mask: `5381 * 33^n` plus each character weighted by a power of 33. */
  function Djb2(s: string): int
  {
    if s == [] then 5381 else Djb2(s[..|s| - 1]) * 33 + s[|s| - 1] as int
  }

  lemma MaskStep(a: int, c: int)
    ensures ((a % HashModulus) * 33 + c) % HashModulus == (a * 33 + c) % HashModulus
  {
    var q := a / HashModulus;
    assert a == q * HashModulus + a % HashModulus;
    assert a * 33 + c == (a % HashModulus) * 33 + c + (q * 33) * HashModulus;
  }

  /** Masking after every step gives the unmasked djb2 value modulo `2^32`. */
  lemma {:induction false} HashIsDjb2(s: string)
    ensures HashOf(s) == Djb2(s) % HashModulus
  {
    if s != [] {
      var p := s[..|s| - 1];
      HashIsDjb2(p);
      MaskStep(Djb2(p), s[|s| - 1] as int);
    }
  }

  // ---------------------------------------------------------------- friends

  /** `UserFriend.playing_on_server`: the first server whose player list names the friend. */
  method PlayingOnServer(servers: seq<RwrServer.Server>, username: string) returns (r: Option<RwrServer.Server>)
    ensures r.None? <==> RwrPlayer.PlayingServerIndex(servers, username).None?
    ensures r.Some? ==> r.value == servers[RwrPlayer.PlayingServerIndex(servers, username).value]
  {
    for i := 0 to |servers|
      invariant forall j :: 0 <= j < i ==> username !in servers[j].players.list
    {
      if servers[i].players.list == [] {
        continue;
      }
      if username in servers[i].players.list {
        return Some(servers[i]);
      }
    }
    return None;
  }

  /** What `playing_on_server` decides for a friend: some server lists it. */
  predicate Playing(servers: seq<RwrServer.Server>, username: string)
  {
    RwrPlayer.PlayingServerIndex(servers, username).Some?
  }

  /** The friends playing on some server, in the given order. */
  function PlayingFriends(friends: seq<string>, servers: seq<RwrServer.Server>): (r: seq<string>)
    ensures forall u :: u in r <==> u in friends && Playing(servers, u)
  {
    if friends == [] then []
    else (if Playing(servers, friends[0]) then [friends[0]] else []) + PlayingFriends(friends[1..], servers)
  }

  /** The friends playing nowhere, in the given order. */
  function IdleFriends(friends: seq<string>, servers: seq<RwrServer.Server>): (r: seq<string>)
    ensures forall u :: u in r <==> u in friends && !Playing(servers, u)
  {
    if friends == [] then []
    else (if Playing(servers, friends[0]) then [] else [friends[0]]) + IdleFriends(friends[1..], servers)
  }

  /** Every friend lands in exactly one of the two lists, as often as it is stored. */
  lemma {:induction false} StatusPartition(friends: seq<string>, servers: seq<RwrServer.Server>)
    ensures multiset(PlayingFriends(friends, servers)) + multiset(IdleFriends(friends, servers)) == multiset(friends)
    ensures |PlayingFriends(friends, servers)| + |IdleFriends(friends, servers)| == |friends|
  {
    if friends != [] {
      StatusPartition(friends[1..], servers);
      assert friends == [friends[0]] + friends[1..];
    }
  }

  /** Dividing a concatenation divides each part in turn: the playing friends keep their order. */
  lemma {:induction false} PlayingAppend(a: seq<string>, b: seq<string>, servers: seq<RwrServer.Server>)
    ensures PlayingFriends(a + b, servers) == PlayingFriends(a, servers) + PlayingFriends(b, servers)
  {
    if a == [] {
      assert a + b == b;
    } else {
      assert (a + b)[0] == a[0];
      assert (a + b)[1..] == a[1..] + b;
      PlayingAppend(a[1..], b, servers);
    }
  }

  /** The same for the friends playing nowhere. */
  lemma {:induction false} IdleAppend(a: seq<string>, b: seq<string>, servers: seq<RwrServer.Server>)
    ensures IdleFriends(a + b, servers) == IdleFriends(a, servers) + IdleFriends(b, servers)
  {
    if a == [] {
      assert a + b == b;
    } else {
      assert (a + b)[0] == a[0];
      assert (a + b)[1..] == a[1..] + b;
      IdleAppend(a[1..], b, servers);
    }
  }

  /** Keeping only some friends of a sorted list keeps it sorted. */
  lemma {:induction false} SortedFilters(s: seq<string>, servers: seq<RwrServer.Server>)
    requires Sorting.Sorted(s)
    ensures Sorting.Sorted(PlayingFriends(s, servers)) && Sorting.Sorted(IdleFriends(s, servers))
  {
    if s != [] {
      Sorting.SortedTail(s);
      SortedFilters(s[1..], servers);
      forall u | u in s[1..] ensures Sorting.LexLe(s[0], u) {
        Sorting.SortedHeadBelow(s, u);
      }
      if Playing(servers, s[0]) {
        Sorting.SortedCons(s[0], PlayingFriends(s[1..], servers));
      } else {
        Sorting.SortedCons(s[0], IdleFriends(s[1..], servers));
      }
    }
  }

  /** `number_of_playing_friends`: the playing friends counted one by one. */
  function NumberOfPlayingFriends(friends: seq<string>, servers: seq<RwrServer.Server>): (n: nat)
    ensures n <= |friends|
  {
    if friends == [] then 0
    else (if Playing(servers, friends[0]) then 1 else 0) + NumberOfPlayingFriends(friends[1..], servers)
  }

  lemma {:induction false} PlayingFriendsCount(friends: seq<string>, servers: seq<RwrServer.Server>)
    ensures NumberOfPlayingFriends(friends, servers) == |PlayingFriends(friends, servers)|
  {
    if friends != [] {
      PlayingFriendsCount(friends[1..], servers);
    }
  }

  /**
   * The usernames `add_friends` creates, as written: those not already
   * stored, each upper-cased afterwards.
   */
  function NewFriends(stored: seq<string>, usernames: seq<string>): (r: seq<string>)
    ensures |r| <= |usernames|
    ensures forall i :: 0 <= i < |r| ==> r[i] == Text.Upper(r[i])
  {
    if usernames == [] then []
    else
      Text.UpperIdempotent(usernames[0]);
      (if usernames[0] in stored then [] else [Text.Upper(usernames[0])]) + NewFriends(stored, usernames[1..])
  }

  /** Each created friend comes from a requested username that is not stored as given. */
  lemma {:induction false} NewFriendsFrom(stored: seq<string>, usernames: seq<string>, u: string)
    requires u in NewFriends(stored, usernames)
    ensures exists k :: 0 <= k < |usernames| && usernames[k] !in stored && Text.Upper(usernames[k]) == u
  {
    if usernames[0] !in stored && u == Text.Upper(usernames[0]) {
      assert usernames[0] !in stored && Text.Upper(usernames[0]) == u;
    } else {
      NewFriendsFrom(stored, usernames[1..], u);
      var k :| 0 <= k < |usernames[1..]| && usernames[1..][k] !in stored && Text.Upper(usernames[1..][k]) == u;
      assert usernames[k + 1] == usernames[1..][k];
    }
  }

  /**
   * The membership test comes before upper-casing: a friend stored as
   * `"FOO"` and requested as `"foo"` is created a second time.
   */
  lemma NewFriendsDuplicate()
    ensures NewFriends(["FOO"], ["foo"]) == ["FOO"]
    ensures NewFriends([], ["Foo", "foo"]) == ["FOO", "FOO"]
  {
    assert Text.Upper("foo") == "FOO" && Text.Upper("Foo") == "FOO";
    assert "foo" != "FOO";
    assert ["Foo", "foo"][1..] == ["foo"];
  }

  /** `add_friends` upper-casing first and skipping usernames already stored or already created. */
  function NewFriendsChecked(stored: seq<string>, usernames: seq<string>): (r: seq<string>)
    ensures |r| <= |usernames|
    ensures forall u :: u in r ==> u !in stored
    decreases |usernames|
  {
    if usernames == [] then []
    else
      var u := Text.Upper(usernames[0]);
      if u in stored then NewFriendsChecked(stored, usernames[1..])
      else [u] + NewFriendsChecked(stored + [u], usernames[1..])
  }

  /** No username occurs twice (the unique index on a user's friends). */
  predicate NoRepeats(s: seq<string>)
  {
    forall i, j :: 0 <= i < j < |s| ==> s[i] != s[j]
  }

  /** Upper-casing before the test keeps the friends list free of repeats. */
  lemma {:induction false} NewFriendsCheckedDistinct(stored: seq<string>, usernames: seq<string>)
    requires NoRepeats(stored)
    ensures NoRepeats(stored + NewFriendsChecked(stored, usernames))
    decreases |usernames|
  {
    if usernames == [] {
      assert stored + NewFriendsChecked(stored, usernames) == stored;
    } else {
      var u := Text.Upper(usernames[0]);
      if u in stored {
        var rest := NewFriendsChecked(stored, usernames[1..]);
        assert NewFriendsChecked(stored, usernames) == rest;
        NewFriendsCheckedDistinct(stored, usernames[1..]);
        assert NoRepeats(stored + rest);
      } else {
        var s2 := stored + [u];
        assert NoRepeats(s2);
        NewFriendsCheckedDistinct(s2, usernames[1..]);
        assert stored + NewFriendsChecked(stored, usernames) == s2 + NewFriendsChecked(s2, usernames[1..]);
      }
    }
  }

  /** The first occurrence of `x` taken out of `s`. */
  function RemoveFirst(s: seq<string>, x: string): (r: seq<string>)
    ensures x in s ==> |r| == |s| - 1 && multiset(r) == multiset(s) - multiset{x}
    ensures x !in s ==> r == s
  {
    if s == [] then []
    else if s[0] == x then
      assert s == [s[0]] + s[1..];
      s[1..]
    else
      assert s == [s[0]] + s[1..];
      [s[0]] + RemoveFirst(s[1..], x)
  }

  /** A site user with its friends list (the `UserFriend` rows it owns). */
  class User {
    var friends: seq<string>

    constructor ()
      ensures friends == []
    {
      friends := [];
    }

    /** `friends_ordered_by_username`. */
    function FriendsOrdered(): (r: seq<string>)
      reads this
      ensures multiset(r) == multiset(friends) && Sorting.Sorted(r)
    {
      Sorting.SortStrings(friends)
    }

    /** `has_friend`: the username is among the ordered friends, so among the stored ones. */
    predicate HasFriend(username: string)
      reads this
      ensures HasFriend(username) <==> username in friends
    {
      assert multiset(FriendsOrdered()) == multiset(friends);
      assert username in FriendsOrdered() <==> username in multiset(friends);
      username in FriendsOrdered()
    }

    /** `friends_divided_by_status`: the ordered friends split into the playing and the others. */
    function DividedByStatus(servers: seq<RwrServer.Server>): (r: (seq<string>, seq<string>))
      reads this
      ensures forall u :: u in r.0 <==> u in friends && Playing(servers, u)
      ensures forall u :: u in r.1 <==> u in friends && !Playing(servers, u)
      ensures Sorting.Sorted(r.0) && Sorting.Sorted(r.1)
    {
      var ordered := FriendsOrdered();
      assert forall u :: u in ordered <==> u in multiset(friends);
      SortedFilters(ordered, servers);
      (PlayingFriends(ordered, servers), IdleFriends(ordered, servers))
    }

    /**
     * `add_friends`, with each username upper-cased before it is looked up
     * among the stored friends and those created so far (`NewFriendsChecked`):
     * creates, and returns, a friend for each requested username not stored
     * yet, and a list without repeats keeps none.
     */
    method AddFriends(usernames: seq<string>) returns (added: seq<string>)
      modifies this
      ensures added == NewFriendsChecked(old(friends), usernames)
      ensures friends == old(friends) + added
      ensures NoRepeats(old(friends)) ==> NoRepeats(friends)
    {
      var stored := friends;
      var created := [];
      assert stored + created == stored && usernames[0..] == usernames;
      for i := 0 to |usernames|
        invariant NewFriendsChecked(stored, usernames) == created + NewFriendsChecked(stored + created, usernames[i..])
      {
        var u := Text.Upper(usernames[i]);
        assert usernames[i..][0] == usernames[i] && usernames[i..][1..] == usernames[i + 1..];
        if u !in stored + created {
          assert (stored + created) + [u] == stored + (created + [u]);
          created := created + [u];
        }
      }
      assert NewFriendsChecked(stored + created, usernames[|usernames|..]) == [];
      added := created;
      friends := stored + added;
      if NoRepeats(stored) {
        NewFriendsCheckedDistinct(stored, usernames);
      }
    }

    /** `remove_friend`: `True` exactly when the friend was stored, and then it is gone. */
    method RemoveFriend(username: string) returns (removed: bool)
      modifies this
      ensures removed <==> username in old(friends)
      ensures friends == RemoveFirst(old(friends), username)
    {
      removed := username in friends;
      friends := RemoveFirst(friends, username);
    }
  }

  lemma {:induction false} NewFriendsAppend(stored: seq<string>, a: seq<string>, b: seq<string>)
    ensures NewFriends(stored, a + b) == NewFriends(stored, a) + NewFriends(stored, b)
  {
    if a == [] {
      assert a + b == b;
    } else {
      assert (a + b)[0] == a[0];
      assert (a + b)[1..] == a[1..] + b;
      NewFriendsAppend(stored, a[1..], b);
    }
  }

  // ---------------------------------------------------------------- RwrAccount lookups

  /** `RwrAccountType`. */
  datatype AccountType = Invasion | Pacific

  /** `RwrAccountType(type.upper())`: a `ValueError` for any other name. */
  function AccountTypeOf(name: string): (r: Result<AccountType, ConversionError>)
    ensures r == Success(Invasion) <==> Text.Upper(name) == "INVASION"
    ensures r == Success(Pacific) <==> Text.Upper(name) == "PACIFIC"
    ensures r.Failure? ==> r.error == ValueError
  {
    var upper := Text.Upper(name);
    if upper == "INVASION" then Success(Invasion)
    else if upper == "PACIFIC" then Success(Pacific)
    else Failure(ValueError)
  }

  datatype Account = Account(accountType: AccountType, username: string)

  /** The stored accounts of the type whose username is requested (what the query finds). */
  function Matching(accounts: seq<Account>, t: AccountType, usernames: seq<string>): (r: seq<Account>)
    ensures forall i :: 0 <= i < |r| ==> r[i].accountType == t && r[i].username in usernames
    ensures forall a :: a in accounts && a.accountType == t && a.username in usernames ==> a in r
  {
    if accounts == [] then []
    else
      (if accounts[0].accountType == t && accounts[0].username in usernames then [accounts[0]] else [])
      + Matching(accounts[1..], t, usernames)
  }

  function Usernames(accounts: seq<Account>): (r: seq<string>)
    ensures |r| == |accounts| && forall i :: 0 <= i < |r| ==> r[i] == accounts[i].username
  {
    if accounts == [] then [] else [accounts[0].username] + Usernames(accounts[1..])
  }

  /** The new accounts created for the requested usernames that no account found has. */
  function Created(found: seq<string>, t: AccountType, usernames: seq<string>): (r: seq<Account>)
    ensures forall i :: 0 <= i < |r| ==> r[i].accountType == t && r[i].username in usernames
  {
    if usernames == [] then []
    else
      var rest := Created(found, t, usernames[..|usernames| - 1]);
      var u := usernames[|usernames| - 1];
      if u in found then rest else rest + [Account(t, u)]
  }

  /**
   * `RwrAccount.get_many_by_type_and_usernames`: the stored accounts found,
   * followed, with `create_if_unexisting`, by a new account for every
   * requested username none of them has.
   */
  method GetManyByTypeAndUsernames(accounts: seq<Account>, typeName: string, usernames: seq<string>, create: bool)
    returns (r: Result<seq<Account>, ConversionError>)
    ensures r.Failure? <==> AccountTypeOf(typeName).Failure?
    ensures r.Success? ==> var t := AccountTypeOf(typeName).value;
      var found := Matching(accounts, t, usernames);
      r.value == found + (if create then Created(Usernames(found), t, usernames) else [])
  {
    var t;
    match AccountTypeOf(typeName) {
      case Failure(e) => return Failure(e);
      case Success(v) => t := v;
    }
    var rwrAccounts := Matching(accounts, t, usernames);
    var found := rwrAccounts;
    if create {
      var foundUsernames := Usernames(found);
      for i := 0 to |usernames|
        invariant rwrAccounts == found + Created(foundUsernames, t, usernames[..i])
      {
        assert usernames[..i + 1][..i] == usernames[..i];
        if usernames[i] in foundUsernames {
          continue;
        }
        rwrAccounts := rwrAccounts + [Account(t, usernames[i])];
      }
      assert usernames[..|usernames|] == usernames;
    }
    return Success(rwrAccounts);
  }

  /** With `create_if_unexisting`, every requested username has an account of the type in the result. */
  lemma {:induction false} CreatedCovers(found: seq<string>, t: AccountType, usernames: seq<string>, u: string)
    requires u in usernames && u !in found
    ensures Account(t, u) in Created(found, t, usernames)
  {
    var n := |usernames| - 1;
    if usernames[n] != u {
      assert u in usernames[..n] by {
        var k :| 0 <= k < |usernames| && usernames[k] == u;
        assert k < n && usernames[..n][k] == u;
      }
      CreatedCovers(found, t, usernames[..n], u);
    }
  }

  lemma AllRequestedHaveAccounts(accounts: seq<Account>, t: AccountType, usernames: seq<string>, u: string)
    requires u in usernames
    ensures var found := Matching(accounts, t, usernames);
      exists a :: a in found + Created(Usernames(found), t, usernames) && a.accountType == t && a.username == u
  {
    var found := Matching(accounts, t, usernames);
    var names := Usernames(found);
    if u in names {
      var k :| 0 <= k < |names| && names[k] == u;
      assert found[k] in found + Created(names, t, usernames);
    } else {
      CreatedCovers(names, t, usernames, u);
      assert Account(t, u) in found + Created(names, t, usernames);
    }
  }
}
