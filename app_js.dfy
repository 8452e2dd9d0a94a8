/**
 * The friends store of `static/js/app.js`, which keeps the stored values raw,
 * the views built on it (the home-page badge, the servers-list highlight, the
 * enriched list of the "My friends" page), and the Vue component of that page.
 */
module AppJs {
  import opened Wrappers
  import opened Browser
  import Sorting
  import Text
  import FriendsJs

  /** `JSON.parse(localStorage.getItem('friends')) || []`: `null` reads as `[]`, unparsable text throws. */
  function ReadFriends(item: Option<Stored>): (r: Result<seq<JsValue>, JsError>)
    ensures item.None? ==> r == Success([])
    ensures item.Some? && item.value.Array? ==> r == Success(item.value.entries)
    ensures r.Failure? <==> item.Some? && (item.value.EmptyText? || item.value.Malformed?)
  {
    match item
    case None => Success([])
    case Some(NullLiteral) => Success([])
    case Some(Array(es)) => Success(es)
    case Some(EmptyText) => Failure(SyntaxError)
    case Some(Malformed) => Failure(SyntaxError)
  }

  /** `addFriend(username)`: refused when the exact value is stored, otherwise appended and written sorted. */
  function AddOutcome(item: Option<Stored>, works: bool, username: JsValue): FriendsJs.Outcome
  {
    match ReadFriends(item)
    case Failure(e) => FriendsJs.Outcome(Failure(e), None)
    case Success(fs) =>
      if InArray(username, fs) then FriendsJs.Outcome(Success(false), None)
      else if !works then FriendsJs.Outcome(Failure(StorageError), None)
      else FriendsJs.Outcome(Success(true), Some(JsSort(fs + [username])))
  }

  /** `removeFriend(username)`: refused when the exact value is absent, otherwise its first copy goes. */
  function RemoveOutcome(item: Option<Stored>, works: bool, username: JsValue): FriendsJs.Outcome
  {
    match ReadFriends(item)
    case Failure(e) => FriendsJs.Outcome(Failure(e), None)
    case Success(fs) =>
      if !InArray(username, fs) then FriendsJs.Outcome(Success(false), None)
      else if !works then FriendsJs.Outcome(Failure(StorageError), None)
      else FriendsJs.Outcome(Success(true), Some(JsSort(SpliceOne(fs, IndexOf(username, fs)))))
  }

  /** The entries once the first copy of `x` is dropped. */
  function Without(fs: seq<JsValue>, x: JsValue): (r: seq<JsValue>)
    requires x in fs
    ensures multiset(r) == multiset(fs) - multiset{x}
  {
    var k := IndexOf(x, fs);
    assert fs == fs[..k] + [x] + fs[k + 1..];
    fs[..k] + fs[k + 1..]
  }

  /**
   * Both store calls leave a sorted list without duplicates behind, whatever value
   * the username arrives as: the comparison and the stored entry are the same value.
   */
  lemma StoreKeepsInvariant(item: Option<Stored>, works: bool, username: JsValue)
    requires ReadFriends(item).Success? && Sorting.NoDup(ReadFriends(item).value)
    ensures var after := ReadFriends(FriendsJs.After(item, AddOutcome(item, works, username)));
      after.Success? && Sorting.NoDup(after.value)
    ensures var after := ReadFriends(FriendsJs.After(item, RemoveOutcome(item, works, username)));
      after.Success? && Sorting.NoDup(after.value)
  {
    var fs := ReadFriends(item).value;
    if username !in fs {
      AddKeepsNoDup(fs, username);
    } else {
      RemoveKeepsNoDup(fs, username);
    }
  }

  lemma AddKeepsNoDup(fs: seq<JsValue>, username: JsValue)
    requires Sorting.NoDup(fs) && username !in fs
    ensures Sorting.NoDup(JsSort(fs + [username]))
  {
    Sorting.NoDupAppend(fs, username);
    Sorting.NoDupSubMultiset(fs + [username], JsSort(fs + [username]));
  }

  lemma RemoveKeepsNoDup(fs: seq<JsValue>, username: JsValue)
    requires Sorting.NoDup(fs) && username in fs
    ensures Sorting.NoDup(JsSort(SpliceOne(fs, IndexOf(username, fs))))
  {
    assert SpliceOne(fs, IndexOf(username, fs)) == Without(fs, username);
    Sorting.NoDupSubMultiset(fs, JsSort(SpliceOne(fs, IndexOf(username, fs))));
  }

  /** The add and remove calls: refused exactly on a duplicate add or a missing remove, otherwise one copy more or fewer. */
  lemma StoreEffect(item: Option<Stored>, username: JsValue)
    requires ReadFriends(item).Success?
    ensures var fs := ReadFriends(item).value;
      var o := AddOutcome(item, true, username);
      (o.result == Success(false) <==> username in fs)
      && (o.result == Success(true) ==> multiset(FriendsJs.After(item, o).value.entries) == multiset(fs) + multiset{username}
                                          && Sorting.SortedBy(FriendsJs.After(item, o).value.entries, ToJsString))
    ensures var fs := ReadFriends(item).value;
      var o := RemoveOutcome(item, true, username);
      (o.result == Success(false) <==> username !in fs)
      && (o.result == Success(true) ==> multiset(FriendsJs.After(item, o).value.entries) == multiset(fs) - multiset{username}
                                          && Sorting.SortedBy(FriendsJs.After(item, o).value.entries, ToJsString))
  {
    var fs := ReadFriends(item).value;
    if username in fs {
      assert SpliceOne(fs, IndexOf(username, fs)) == Without(fs, username);
    }
  }

  /** The app.js store over `localStorage`. */
  class AppStore {
    const storage: LocalStorage

    constructor (storage: LocalStorage)
      ensures this.storage == storage
    {
      this.storage := storage;
    }

    method GetFriends() returns (r: Result<seq<JsValue>, JsError>)
      ensures r == ReadFriends(storage.GetItem(FriendsKey))
    {
      var item := storage.GetItem(FriendsKey);
      r := ReadFriends(item);
    }

    /** `setFriends(friends)`: sorts, then writes. */
    method SetFriends(friends: seq<JsValue>) returns (ok: bool)
      modifies storage
      ensures ok == storage.works && storage.works == old(storage.works)
      ensures storage.items == if ok then old(storage.items)[FriendsKey := Array(JsSort(friends))] else old(storage.items)
    {
      ok := storage.SetItem(FriendsKey, Array(JsSort(friends)));
    }

    method AddFriend(username: JsValue) returns (r: Result<bool, JsError>)
      modifies storage
      ensures var o := AddOutcome(old(storage.GetItem(FriendsKey)), old(storage.works), username);
        r == o.result && storage.items == FriendsJs.Persist(old(storage.items), o)
      ensures storage.works == old(storage.works)
    {
      var friends := GetFriends();
      if friends.Failure? {
        return Failure(friends.error);
      }
      var fs := friends.value;
      if InArray(username, fs) {
        return Success(false);
      }
      var ok := SetFriends(fs + [username]);
      r := if ok then Success(true) else Failure(StorageError);
    }

    method RemoveFriend(username: JsValue) returns (r: Result<bool, JsError>)
      modifies storage
      ensures var o := RemoveOutcome(old(storage.GetItem(FriendsKey)), old(storage.works), username);
        r == o.result && storage.items == FriendsJs.Persist(old(storage.items), o)
      ensures storage.works == old(storage.works)
    {
      var friends := GetFriends();
      if friends.Failure? {
        return Failure(friends.error);
      }
      var fs := friends.value;
      if !InArray(username, fs) {
        return Success(false);
      }
      var ok := SetFriends(SpliceOne(fs, IndexOf(username, fs)));
      r := if ok then Success(true) else Failure(StorageError);
    }
  }

  /** The friends found in `all_players`, in list order; strict equality, so a stored number never matches a name. */
  function Playing(friends: seq<JsValue>, allPlayers: seq<string>): seq<JsValue>
  {
    if friends == [] then []
    else (if InArray(friends[0], Strs(allPlayers)) then [friends[0]] else []) + Playing(friends[1..], allPlayers)
  }

  /** `Playing` keeps exactly the playing friends, in order, and no more of them than there are friends. */
  lemma {:induction false} PlayingMembers(friends: seq<JsValue>, allPlayers: seq<string>)
    ensures |Playing(friends, allPlayers)| <= |friends|
    ensures forall x :: x in Playing(friends, allPlayers) <==> x in friends && x.JsStr? && x.s in allPlayers
    ensures multiset(Playing(friends, allPlayers)) <= multiset(friends)
  {
    if friends != [] {
      PlayingMembers(friends[1..], allPlayers);
      InArrayStrs(friends[0], allPlayers);
      assert friends == [friends[0]] + friends[1..];
    }
  }

  lemma {:induction false} PlayingAppend(a: seq<JsValue>, b: seq<JsValue>, allPlayers: seq<string>)
    ensures Playing(a + b, allPlayers) == Playing(a, allPlayers) + Playing(b, allPlayers)
  {
    if a == [] {
      assert a + b == b;
    } else {
      assert (a + b)[0] == a[0];
      assert (a + b)[1..] == a[1..] + b;
      PlayingAppend(a[1..], b, allPlayers);
      var h := if InArray(a[0], Strs(allPlayers)) then [a[0]] else [];
      assert Playing(a + b, allPlayers) == h + Playing(a[1..] + b, allPlayers);
      assert Playing(a, allPlayers) == h + Playing(a[1..], allPlayers);
    }
  }

  /** The `$.each` loop of `initOnHome` that gathers `playing_friends`. */
  method PlayingFriends(friends: seq<JsValue>, allPlayers: seq<string>) returns (playing: seq<JsValue>)
    ensures playing == Playing(friends, allPlayers)
    ensures forall x :: x in playing <==> x in friends && x.JsStr? && x.s in allPlayers
  {
    playing := [];
    var i := 0;
    while i < |friends|
      invariant 0 <= i <= |friends|
      invariant playing == Playing(friends[..i], allPlayers)
    {
      if InArray(friends[i], Strs(allPlayers)) {
        playing := playing + [friends[i]];
      }
      assert friends[..i + 1] == friends[..i] + [friends[i]];
      PlayingAppend(friends[..i], [friends[i]], allPlayers);
      i := i + 1;
    }
    assert friends[..|friends|] == friends;
    PlayingMembers(friends, allPlayers);
  }

  /** Whether any stored friend is on a server's player list. */
  predicate HasFriend(players: seq<string>, friends: seq<JsValue>)
  {
    exists f :: f in friends && InArray(f, Strs(players))
  }

  /** The inner `$.each` of `initOnServersList`, which stops at the first friend found. */
  method ServerHighlighted(players: seq<string>, friends: seq<JsValue>) returns (highlight: bool)
    ensures highlight <==> exists k :: 0 <= k < |friends| && friends[k].JsStr? && friends[k].s in players
    ensures highlight == HasFriend(players, friends)
  {
    highlight := false;
    var i := 0;
    while i < |friends|
      invariant 0 <= i <= |friends|
      invariant forall k :: 0 <= k < i ==> !InArray(friends[k], Strs(players))
    {
      if InArray(friends[i], Strs(players)) {
        highlight := true;
        InArrayStrs(friends[i], players);
        return;
      }
      i := i + 1;
    }
    forall k | 0 <= k < |friends| ensures !(friends[k].JsStr? && friends[k].s in players) {
      InArrayStrs(friends[k], players);
    }
  }

  /** The addresses of `all_players_with_servers` whose list holds a friend. */
  method ServersToHighlight(servers: map<string, seq<string>>, friends: seq<JsValue>) returns (marked: set<string>)
    ensures marked == set a | a in servers && HasFriend(servers[a], friends)
  {
    marked := {};
    var todo := servers.Keys;
    while todo != {}
      invariant todo <= servers.Keys
      invariant marked == set a | a in servers && a !in todo && HasFriend(servers[a], friends)
      decreases |todo|
    {
      var a :| a in todo;
      var highlight := ServerHighlighted(servers[a], friends);
      if highlight {
        marked := marked + {a};
      }
      todo := todo - {a};
    }
  }

  /** The last server whose list holds `friend`: later servers overwrite `playing_on_server`. */
  function LastServerWith(servers: seq<ServerPlayers>, friend: JsValue): (k: Option<nat>)
    ensures k.Some? ==> k.value < |servers| && InArray(friend, Strs(servers[k.value].players))
    ensures k.Some? ==> forall j :: k.value < j < |servers| ==> !InArray(friend, Strs(servers[j].players))
    ensures k.None? ==> forall j :: 0 <= j < |servers| ==> !InArray(friend, Strs(servers[j].players))
  {
    if servers == [] then None
    else if InArray(friend, Strs(servers[|servers| - 1].players)) then Some(|servers| - 1)
    else LastServerWith(servers[..|servers| - 1], friend)
  }

  /** An entry of `friendsEnriched`. */
  datatype EnrichedFriend = EnrichedFriend(username: JsValue, playingOnServer: Option<ServerPlayers>)

  /** The server a friend is shown playing on: the last one whose player list has it. */
  function PlayingOn(servers: seq<ServerPlayers>, friend: JsValue): Option<ServerPlayers>
  {
    match LastServerWith(servers, friend)
    case None => None
    case Some(k) => Some(servers[k])
  }

  /** `friendsEnriched`: one entry per friend, in order, with the last server that lists it. */
  method Enriched(friends: seq<JsValue>, servers: seq<ServerPlayers>) returns (r: seq<EnrichedFriend>)
    ensures |r| == |friends|
    ensures forall i :: 0 <= i < |friends| ==> r[i].username == friends[i]
    ensures forall i :: 0 <= i < |friends| ==> r[i].playingOnServer == PlayingOn(servers, friends[i])
  {
    r := [];
    var i := 0;
    while i < |friends|
      invariant 0 <= i <= |friends| && |r| == i
      invariant forall q :: 0 <= q < i ==> r[q].username == friends[q]
      invariant forall q :: 0 <= q < i ==> r[q].playingOnServer == PlayingOn(servers, friends[q])
    {
      var playing := PlayingServer(servers, friends[i]);
      r := r + [EnrichedFriend(friends[i], playing)];
      i := i + 1;
    }
  }

  /** The inner loop of `friendsEnriched`: every server that lists the friend overwrites the previous one. */
  method PlayingServer(servers: seq<ServerPlayers>, friend: JsValue) returns (playing: Option<ServerPlayers>)
    ensures playing == PlayingOn(servers, friend)
  {
    playing := None;
    var j := 0;
    while j < |servers|
      invariant 0 <= j <= |servers|
      invariant playing == PlayingOn(servers[..j], friend)
    {
      assert servers[..j + 1][..j] == servers[..j];
      if InArray(friend, Strs(servers[j].players)) {
        playing := Some(servers[j]);
      }
      j := j + 1;
    }
    assert servers[..|servers|] == servers;
  }

  /** A page that loads app.js: the manage link, the home-page badge and the highlighted server rows. */
  class AppPage {
    const store: AppStore
    var manageLinkShown: bool
    var playingBadge: Option<nat>
    var highlighted: set<string>

    constructor (store: AppStore)
      ensures this.store == store && !manageLinkShown && playingBadge.None? && highlighted == {}
    {
      this.store := store;
      manageLinkShown := false;
      playingBadge := None;
      highlighted := {};
    }

    method Init() returns (ok: bool)
      modifies this`manageLinkShown, store.storage
      ensures ok == old(store.storage.works) && store.storage.works == old(store.storage.works)
      ensures manageLinkShown == (old(manageLinkShown) || ok)
      ensures store.storage.GetItem(FriendsKey) == old(store.storage.GetItem(FriendsKey))
    {
      ok := store.storage.IsSupported();
      if ok {
        manageLinkShown := true;
      }
    }

    /** `initOnHome()`: the badge shows the number of playing friends, and only when it is not zero. */
    method InitOnHome(allPlayers: seq<string>) returns (r: Result<(), JsError>)
      modifies this`manageLinkShown, this`playingBadge, store.storage
      ensures store.storage.works == old(store.storage.works)
      ensures store.storage.GetItem(FriendsKey) == old(store.storage.GetItem(FriendsKey))
      ensures !old(store.storage.works) ==> r == Success(()) && playingBadge == old(playingBadge)
      ensures var read := ReadFriends(old(store.storage.GetItem(FriendsKey)));
        old(store.storage.works) && read.Failure? ==> r == Failure(read.error) && playingBadge == old(playingBadge)
      ensures var read := ReadFriends(old(store.storage.GetItem(FriendsKey)));
        old(store.storage.works) && read.Success? ==>
          r == Success(()) &&
          playingBadge == (if |Playing(read.value, allPlayers)| == 0 then old(playingBadge)
                           else Some(|Playing(read.value, allPlayers)|))
    {
      var ok := Init();
      if !ok {
        return Success(());
      }
      var friends := store.GetFriends();
      if friends.Failure? {
        return Failure(friends.error);
      }
      r := Success(());
      if |friends.value| == 0 {
        return;
      }
      var playing := PlayingFriends(friends.value, allPlayers);
      if |playing| == 0 {
        return;
      }
      playingBadge := Some(|playing|);
    }

    /** `initOnServersList()`: every server whose list holds a friend gets its row highlighted. */
    method InitOnServersList(servers: map<string, seq<string>>) returns (r: Result<(), JsError>)
      modifies this`manageLinkShown, this`highlighted, store.storage
      ensures store.storage.works == old(store.storage.works)
      ensures store.storage.GetItem(FriendsKey) == old(store.storage.GetItem(FriendsKey))
      ensures !old(store.storage.works) ==> r == Success(()) && highlighted == old(highlighted)
      ensures var read := ReadFriends(old(store.storage.GetItem(FriendsKey)));
        old(store.storage.works) && read.Failure? ==> r == Failure(read.error) && highlighted == old(highlighted)
      ensures var read := ReadFriends(old(store.storage.GetItem(FriendsKey)));
        old(store.storage.works) && read.Success? ==>
          r == Success(()) &&
          highlighted == old(highlighted) + (set a | a in servers && HasFriend(servers[a], read.value))
    {
      var ok := Init();
      if !ok {
        return Success(());
      }
      var friends := store.GetFriends();
      if friends.Failure? {
        return Failure(friends.error);
      }
      r := Success(());
      if |friends.value| == 0 {
        assert (set a | a in servers && HasFriend(servers[a], friends.value)) == {};
        return;
      }
      var marked := ServersToHighlight(servers, friends.value);
      highlighted := highlighted + marked;
    }
  }

  /** Removing one element keeps a sorted list sorted. */
  lemma SpliceSorted(s: seq<JsValue>, k: int)
    requires Sorting.SortedBy(s, ToJsString) && 0 <= k < |s|
    ensures Sorting.SortedBy(SpliceOne(s, k), ToJsString)
  {
    var r := SpliceOne(s, k);
    forall i, j | 0 <= i < j < |r| ensures Sorting.LexLe(ToJsString(r[i]), ToJsString(r[j])) {
      var i' := if i < k then i else i + 1;
      var j' := if j < k then j else j + 1;
      assert r[i] == s[i'] && r[j] == s[j'];
    }
  }

  /** The Vue list mirrors the store: it holds the stored entries, in the sorted order they are written in. */
  ghost predicate Mirrors(item: Option<Stored>, friends: seq<JsValue>)
  {
    ReadFriends(item) == Success(friends) && Sorting.SortedBy(friends, ToJsString)
  }

  /** What the Vue `addFriend` and `removeFriend` do to their list keeps it a mirror of the store. */
  lemma VueStepsKeepMirror(item: Option<Stored>, friends: seq<JsValue>, username: JsValue)
    requires Mirrors(item, friends)
    ensures var o := AddOutcome(item, true, username);
      Mirrors(FriendsJs.After(item, o), if o.result == Success(true) then JsSort(friends + [username]) else friends)
    ensures var o := RemoveOutcome(item, true, username);
      Mirrors(FriendsJs.After(item, o), if o.result == Success(true) then SpliceOne(friends, IndexOf(username, friends)) else friends)
  {
    if username in friends {
      SpliceSorted(friends, IndexOf(username, friends));
      Sorting.SortBySorted(SpliceOne(friends, IndexOf(username, friends)), ToJsString);
    }
  }

  /** The Vue component of the "My friends" page. */
  class FriendsApp {
    const store: AppStore
    var friends: seq<JsValue>
    var friendToAdd: string
    var alertShown: bool

    constructor (store: AppStore)
      ensures this.store == store && friends == [] && friendToAdd == "" && !alertShown
    {
      this.store := store;
      friends := [];
      friendToAdd := "";
      alertShown := false;
    }

    /** `mounted`: the list is loaded from the store; a read that throws leaves it empty. */
    method Mounted() returns (r: Result<(), JsError>)
      modifies this`friends
      ensures var read := ReadFriends(store.storage.GetItem(FriendsKey));
        if read.Success? then r == Success(()) && friends == read.value
        else r == Failure(read.error) && friends == old(friends)
    {
      var read := store.GetFriends();
      if read.Failure? {
        return Failure(read.error);
      }
      friends := read.value;
      r := Success(());
    }

    /** The Vue `addFriend`: the list grows, and is re-sorted, only when the store accepted the name. */
    method AddFriend(username: JsValue) returns (r: Result<bool, JsError>)
      modifies this`friends, store.storage
      ensures var o := AddOutcome(old(store.storage.GetItem(FriendsKey)), old(store.storage.works), username);
        r == o.result && store.storage.items == FriendsJs.Persist(old(store.storage.items), o)
      ensures friends == if r == Success(true) then JsSort(old(friends) + [username]) else old(friends)
      ensures store.storage.works == old(store.storage.works)
    {
      r := store.AddFriend(username);
      if r == Success(true) {
        friends := JsSort(friends + [username]);
      }
    }

    /** The Vue `removeFriend`: the entry at `indexOf` is spliced out only when the store removed the name. */
    method RemoveFriend(username: JsValue) returns (r: Result<bool, JsError>)
      modifies this`friends, store.storage
      ensures var o := RemoveOutcome(old(store.storage.GetItem(FriendsKey)), old(store.storage.works), username);
        r == o.result && store.storage.items == FriendsJs.Persist(old(store.storage.items), o)
      ensures friends == if r == Success(true) then SpliceOne(old(friends), IndexOf(username, old(friends))) else old(friends)
      ensures store.storage.works == old(store.storage.works)
    {
      r := store.RemoveFriend(username);
      if r == Success(true) {
        friends := SpliceOne(friends, IndexOf(username, friends));
      }
    }

    /** `submitAddFriendForm`: adds the upper-cased input; clears it on success, alerts on a refusal. */
    method SubmitAddFriendForm() returns (r: Result<bool, JsError>)
      modifies this, store.storage
      ensures var name := JsStr(Text.Upper(old(friendToAdd)));
        var o := AddOutcome(old(store.storage.GetItem(FriendsKey)), old(store.storage.works), name);
        r == o.result && store.storage.items == FriendsJs.Persist(old(store.storage.items), o)
        && friends == (if r == Success(true) then JsSort(old(friends) + [name]) else old(friends))
      ensures friendToAdd == if r == Success(true) then "" else old(friendToAdd)
      ensures alertShown == (old(alertShown) || r == Success(false))
      ensures store.storage.works == old(store.storage.works)
    {
      r := AddFriend(JsStr(Text.Upper(friendToAdd)));
      if r == Success(true) {
        friendToAdd := "";
      } else if r == Success(false) {
        alertShown := true;
      }
    }
  }
}
