# rwrs in Dafny

A verified model of the logic at the core of rwrs, the companion web site
and Discord bot of the game Running With Rifles (RWR). It tracks the
official and community game servers, the players' statistics and the
friends a visitor follows. The model covers three parts of the code:

- **The browser-side friends list** (`static/js/friends.js`,
  `static/js/app.js`, `static/js/friends_import.js`). Each script keeps
  the visitor's friends as a JSON array under the `friends` key of
  `localStorage`. It shows the add/remove toggle and the highlight of
  every players-table row, counts the friends who are online, and
  imports the list into an account. `localStorage` is a class whose
  items map and "does it work" flag are fields (`Browser.LocalStorage`).
  The scripts only store JSON arrays of usernames. The model
  distinguishes four kinds of stored text:
  - a JSON array of strings and numbers;
  - `null`;
  - an empty text;
  - malformed JSON.

  `JSON.parse` throws on the last two; that is modelled as an error
  result, not as a soft failure. Other JSON values are not modelled
  (see "Left out").
- **The game-data rules in Python.** These are:
  - the server, player, rank and map tables of `rwr/`, and their legacy
    copies in `rwr.py` and `rwr_scrapers.py`;
  - the SVG map parser of `rwr/map.py`;
  - the display helpers of `helpers.py`;
  - the variable, friends, hash and claim rules of the two `models.py`
    files;
  - the event window, the message of the day, the Discord username and
    permission helpers, the API token guards, the Steam answers and the
    location validator.
- **The scheduled commands of `commands.py`.** They record player and
  server counts and peak values, queue new statistics rows and detect
  promotions.

Each source file is one module. The exception is `rwr/scraper.py`, split
into three modules:
- `RwrScraperLists`: the option lists;
- `RwrScraperLocations`: the locations tree;
- `RwrScraper`: lookups, filters, counters and players.

The shared helper modules are:
- `Wrappers`: `Option` and `Result`;
- `Text`: strip, split and join as Python and JavaScript do them, and
  upper- and lower-casing of ASCII letters only;
- `Decimal`: digit runs, and `int()` over ASCII digits with single
  underscores between them;
- `PyValues`: Python values and their truthiness;
- `Seqs`: filters, counts and distinct elements;
- `Sorting`: an insertion sort by a string key, proved sorted, stable
  and a permutation.

How each kind of code is modelled:
- Code that changes state is a class whose fields the methods update, or
  a method with a loop. Each is proved against a function stating what
  it computes:
  - the players tables of the friends pages;
  - the map parser;
  - the `Variable`, `User` and `RwrAccount` records;
  - the event store and the message-of-the-day file;
  - the count, peak and promotion loops.
- Pure expressions and comprehensions are functions with contracts, and
  lemmas relate them.

Things the model receives as inputs:
- **As values:** scraped HTML and XML (node texts and a server's
  location); the database (stored variables, friend usernames, accounts,
  statistics rows); the clock (integer minutes or microseconds, as each
  module states); Steam's decoded answers.
- **As parameters:** the library calls (`uuid.UUID`, `arrow.get`, the
  iso3166 country table, `get_rank_from_xp`, `format`) and the Discord
  permissions table.

## Model

| member | source | states |
|---|---|---|
| `Browser.DataValue` | static/js/friends.js:111 | jQuery's `.data('username')` value has the attribute as its string form |
| `Browser.DataValueNumeric` | static/js/friends.js:111 | `.data()` yields a number exactly when the attribute is the decimal text of an integer |
| `Browser.IndexOf` | static/js/friends.js:306 | `indexOf` is -1 exactly when the value is absent, otherwise an index holding it with no earlier copy |
| `Browser.SpliceOne` | static/js/friends.js:306 | `splice(k, 1)` drops element `k`; with `-1` it drops the last one, as JavaScript does |
| `Browser.JsSort` | static/js/friends.js:278 | default `sort()` gives a permutation ordered by the string form of each value |
| `Browser.LocalStorage.IsSupported` | static/js/app.js:4-12 | true exactly when the trial `setItem`/`removeItem` succeed; the `friends` entry is untouched |
| `AppJs.ReadFriends` | static/js/app.js:273-275 | nothing stored (or `null`) reads as `[]`; a stored array is returned as parsed, without coercing to text; only unparsable text throws |
| `AppJs.Without` | static/js/app.js:308 | removing a value leaves exactly one copy fewer of it |
| `AppJs.StoreKeepsInvariant` | static/js/app.js:285-313 | starting from a duplicate-free list, add and remove leave a duplicate-free list, whatever value the username arrives as |
| `AppJs.AddKeepsNoDup` | static/js/app.js:292-294 | appending an absent value and sorting keeps the list duplicate-free |
| `AppJs.RemoveKeepsNoDup` | static/js/app.js:308-310 | splicing out a present value and sorting keeps the list duplicate-free |
| `AppJs.StoreEffect` | static/js/app.js:285-313 | add returns false exactly on a duplicate, otherwise it persists one copy more, sorted; remove returns false exactly on a missing value, otherwise one copy fewer, sorted |
| `AppJs.AppStore.GetFriends` | static/js/app.js:273-275 | returns what `AppJs.ReadFriends` reads from the `friends` entry |
| `AppJs.AppStore.SetFriends` | static/js/app.js:279-281 | the `friends` entry becomes the sorted list when storage works; nothing else changes |
| `AppJs.AppStore.AddFriend` | static/js/app.js:285-297 | returns and persists exactly the add outcome |
| `AppJs.AppStore.RemoveFriend` | static/js/app.js:301-313 | returns and persists exactly the remove outcome |
| `AppJs.PlayingMembers` | static/js/app.js:122-126 | the playing friends are exactly the friends listed in `all_players`, in order, never more than the friends |
| `AppJs.PlayingAppend` | static/js/app.js:122-126 | the playing-friends filter distributes over concatenation |
| `AppJs.PlayingFriends` | static/js/app.js:120-126 | the loop gathers exactly the friends found in `all_players` |
| `AppJs.ServerHighlighted` | static/js/app.js:154-162 | a server is highlighted exactly when some friend is on its player list |
| `AppJs.ServersToHighlight` | static/js/app.js:153-167 | the highlighted addresses are exactly those whose list holds a friend |
| `AppJs.LastServerWith` | static/js/app.js:92-96 | the last server whose list contains the friend, or none when no list does |
| `AppJs.Enriched` | static/js/app.js:84-102 | one entry per friend in list order, each with the last server listing it |
| `AppJs.PlayingServer` | static/js/app.js:92-96 | the inner loop ends on the last server listing the friend |
| `AppJs.AppPage.Init` | static/js/app.js:21-29 | returns whether storage is supported and shows the manage link only then |
| `AppJs.AppPage.InitOnHome` | static/js/app.js:109-136 | the badge shows the number of playing friends, and only when there are friends and that number is not zero |
| `AppJs.AppPage.InitOnServersList` | static/js/app.js:140-168 | with friends stored, exactly the servers whose list holds a friend are highlighted; nothing otherwise |
| `AppJs.SpliceSorted` | static/js/app.js:58 | removing one element keeps a sorted list sorted |
| `AppJs.VueStepsKeepMirror` | static/js/app.js:56-74 | the Vue list stays equal to the stored list after every add or remove |
| `AppJs.FriendsApp.Mounted` | static/js/app.js:50-54 | the Vue list is loaded from the store; a read that throws leaves it unchanged |
| `AppJs.FriendsApp.AddFriend` | static/js/app.js:65-74 | the Vue list gets the name and is re-sorted exactly when the store returned true |
| `AppJs.FriendsApp.RemoveFriend` | static/js/app.js:56-64 | the entry at `indexOf` is spliced out exactly when the store returned true |
| `AppJs.FriendsApp.SubmitAddFriendForm` | static/js/app.js:75-81 | adds the upper-cased input; clears it on success and raises the alert when the store refuses |
| `FriendsJs.RemoveFirst` | static/js/friends.js:306 | the list left by removing one name is the old multiset minus exactly one copy of that name |
| `FriendsJs.RemoveFirstAt` | static/js/friends.js:306 | dropping the first occurrence equals dropping the element at its first index and keeping both sides in order |
| `FriendsJs.IndexOfStrs` | static/js/friends.js:306 | `indexOf` on the stored texts finds a listed name at an in-range index holding it, with no earlier copy |
| `FriendsJs.SpliceIndexOf` | static/js/friends.js:306 | `splice(indexOf(x), 1)` removes exactly the first occurrence of `x` |
| `FriendsJs.ReadWritten` | static/js/friends.js:261-279 | what `getFriends` reads back after `setFriends` is the text of the written entries, sorted |
| `FriendsJs.WriteOrderIndependent` | static/js/friends.js:277-279 | two writes of the same multiset of names read back identically: persisted order does not depend on insertion order |
| `FriendsJs.AddFriendEffect` | static/js/friends.js:283-295 | a listed name gives false and no write; otherwise true, a write, and the list read back is the old one plus the name, sorted, containing the name |
| `FriendsJs.RemoveFriendEffect` | static/js/friends.js:299-311 | an unlisted value gives false and no write; otherwise true and the list read back is the old one minus its first copy, sorted |
| `FriendsJs.StringUsernamesKeepNoDup` | static/js/friends.js:283-311 | with string usernames, a list without duplicates still has none after any add or remove |
| `FriendsJs.NumericUsernameDuplicated` | static/js/friends.js:267-306 | as written, the number 123 coming from `.data('username')` is added twice and can never be removed (finding) |
| `FriendsJs.ByNameKeepsNoDup` | static/js/friends.js:283-311 | corrected add/remove comparing `String(username)`: the list read back contains the name after an add, lacks it after a remove, and never holds a duplicate |
| `FriendsJs.FriendsStore.GetFriends` | static/js/friends.js:260-273 | nothing stored reads as `[]`; a stored array gives one text per entry in order (numbers converted with `+ ''`); corrupt JSON is an error, not `[]` |
| `FriendsJs.FriendsStore.SetFriends` | static/js/friends.js:277-279 | the `friends` entry becomes the sorted list when storage works; nothing else changes |
| `FriendsJs.FriendsStore.AddFriend` | static/js/friends.js:283-295 | returns and persists exactly the add outcome (compared with `===` against the stored texts) |
| `FriendsJs.FriendsStore.RemoveFriend` | static/js/friends.js:299-311 | returns and persists exactly the remove outcome (`indexOf` then `splice`) |
| `FriendsJs.FriendsStore.AddFriendByName` | static/js/friends.js:283-295 | corrected `addFriend`: returns and persists the add outcome computed on `String(username)` |
| `FriendsJs.FriendsStore.RemoveFriendByName` | static/js/friends.js:299-311 | corrected `removeFriend`: returns and persists the remove outcome computed on `String(username)` |
| `FriendsJs.IsListedFriendText` | static/js/friends.js:148 | the row's `$.inArray` test sees a name exactly when it is listed and `.data` keeps it as text |
| `FriendsJs.ListRowInit` | static/js/friends.js:148-156 | a fresh players-list row shows the remove link exactly when its player is listed, the add link otherwise, and gets `info` when listed and not `notice` |
| `FriendsJs.ListRowAdded` | static/js/friends.js:121-128 | after an add click the row shows the remove link only, and gets `info` unless it has `notice` |
| `FriendsJs.RowRemoved` | static/js/friends.js:139-143 | after a remove click the row shows the add link only and loses `info` |
| `FriendsJs.DetailsRowInit` | static/js/friends.js:77-90 | a server-details row of a player on the server shows the remove link and `info` when listed, the add link otherwise |
| `FriendsJs.DetailsRowAdded` | static/js/friends.js:49-53 | after an add click the server-details row shows the remove link only and has `info` |
| `FriendsJs.InitListRows` | static/js/friends.js:109-157 | every row is initialised independently and the table keeps its length |
| `FriendsJs.InitDetailsRows` | static/js/friends.js:76-91 | exactly the rows of players on the server's list are initialised; the others are untouched |
| `FriendsJs.FirstServerAt` | static/js/friends.js:74-95 | the index of the first server with the current address, where `$.each` stops, or none |
| `FriendsJs.DetailsRows` | static/js/friends.js:74-95 | the rows marked for the first server at the current address; all rows unchanged when no server has it |
| `FriendsJs.AddClickAgrees` | static/js/friends.js:115-131 | after a successful add click the row's toggle agrees with the stored list |
| `FriendsJs.RemoveClickAgrees` | static/js/friends.js:133-146 | after a successful remove click on a duplicate-free list the row's toggle agrees with the stored list |
| `FriendsJs.MarkListRows` | static/js/friends.js:109-157 | the row loop of `initOnPlayersList` yields `InitListRows` |
| `FriendsJs.MarkDetailsRows` | static/js/friends.js:76-91 | the nested player/row loops of `initOnServerDetails` yield `InitDetailsRows` |
| `FriendsJs.PlayersTablePage.Init` | static/js/friends.js:8-16 | returns whether storage is supported, shows the manage link only then, and leaves the friends entry unchanged |
| `FriendsJs.PlayersTablePage.InitOnPlayersList` | static/js/friends.js:100-157 | stops with nothing changed when unsupported; a read error leaves the rows; otherwise the rows become `InitListRows` of the stored list |
| `FriendsJs.PlayersTablePage.ClickAddOnPlayersList` | static/js/friends.js:115-131 | runs `addFriend` on the row's `.data` value and, when it does not throw, applies the add toggle to that row only |
| `FriendsJs.PlayersTablePage.ClickRemoveOnPlayersList` | static/js/friends.js:133-146 | runs `removeFriend` on the row's value and, when it does not throw, applies the remove toggle to that row only |
| `FriendsJs.PlayersTablePage.InitOnServerDetails` | static/js/friends.js:26-96 | stops when unsupported; otherwise shows the feature and marks the rows of the first server at the current address with the stored list |
| `FriendsJs.PlayersTablePage.ClickAddOnServerDetails` | static/js/friends.js:43-56 | runs `addFriend` and applies the server-details add toggle to that row only |
| `FriendsJs.PlayersTablePage.ClickRemoveOnServerDetails` | static/js/friends.js:58-71 | runs `removeFriend` and applies the remove toggle to that row only |
| `FriendsImportJs.ReadFriends` | static/js/friends_import.js:37-53 | `[]` exactly when nothing, empty text or an empty array is stored; a non-empty array is returned unchanged; `null` and corrupt text throw |
| `FriendsImportJs.FriendsWrittenAreImported` | static/js/friends_import.js:37-53 | a non-empty list that the friends store wrote is read back whole, with the same entries, and its key is not removed |
| `FriendsImportJs.ImportPage.GetFriends` | static/js/friends_import.js:37-53 | reads as `ReadFriends`; an empty stored list has its key removed, and nothing else is removed |
| `FriendsImportJs.ImportPage.Init` | static/js/friends_import.js:8-20 | does nothing when storage is unsupported; sends the list for import exactly when it is non-empty |
| `FriendsImportJs.ImportPage.OnImportResponse` | static/js/friends_import.js:63-70 | a success response removes the `friends` key and redirects; any other response alerts and leaves storage untouched |
| `FriendsImportJs.ImportPage.OnImportError` | static/js/friends_import.js:72-81 | a failed request alerts |
| `RwrUtils.ModeName` | rwr/utils.py:9-11 | a known mode gives its short or long label as asked, an unknown mode itself, `None` gives `'N/A'` |
| `RwrUtils.ModeLabelsDiffer` | rwr/utils.py:9-11 | the short and long labels of a known mode differ exactly for `COOP` and `DOM` |
| `RwrUtils.TypeName` | rwr/utils.py:14-16 | a known type gives its label, an unknown type itself, `None` gives `'N/A'` |
| `RwrUtils.FindDatabase` | rwr/utils.py:19-21 | finds the players-list database with the given key exactly when the key is known |
| `RwrUtils.DatabaseName` | rwr/utils.py:19-21 | the configured name of a known database, otherwise `None` |
| `RwrUtils.Component` | rwr/utils.py:5 | one `\d+<unit>` component of the time pattern consumes at least one character |
| `RwrUtils.ComponentOf` | rwr/utils.py:5 | a number followed by its unit letter is read back as that number, with the rest of the text |
| `RwrUtils.ComponentOther` | rwr/utils.py:5 | a number followed by another unit letter is not read as this unit |
| `RwrUtils.ParseTime` | rwr/utils.py:24-37 | the hours, minutes and seconds parts read in turn; a natural number for every text. What it gives is stated by `ParseTimeText` and `ParseTimeNoDigit` |
| `RwrUtils.ParseTimeText` | rwr/utils.py:24-37 | for every text of the form `[<h>h ][<m>min ][<s>s]`, `parse_time` gives `s + 60*m + 3600*h`, a missing part counting as 0 |
| `RwrUtils.ParseTimeNoDigit` | rwr/utils.py:24-39 | a text not opening with a digit matches the empty prefix and gives 0, never `None` |
| `RwrUtils.SecondsPartText` | rwr/utils.py:35 | the seconds part of its own text reads back as the seconds, 0 when missing |
| `RwrUtils.MinutesPartText` | rwr/utils.py:34 | the minutes part (with its optional `in` and spaces) reads back as the minutes and leaves the seconds text |
| `RwrUtils.HoursPartText` | rwr/utils.py:33 | the hours part reads back as the hours and leaves the minutes and seconds text |
| `RwrUtils.RunWithout` | rwr/utils.py:6 | the longest prefix free of a character, ending at that character or at the end |
| `RwrUtils.ParseMapPath` | rwr/utils.py:42-55 | the game type and map id are both present or both `None` |
| `RwrUtils.SearchMapPathAbsent` | rwr/utils.py:6 | without `/maps/` in the text, no position matches the map path pattern |
| `RwrUtils.ParseMapPathAbsent` | rwr/utils.py:42-55 | a path without `/maps/` gives `(None, None)` |
| `RwrUtils.ParseMapPathOf` | rwr/utils.py:42-55 | `/<type>/maps/<id>` gives the segment before `/maps/` and the remainder |
| `RwrUtils.GetMap` | rwr/utils.py:79-89 | `None` unless both keys are known; the map returned is tagged with the `id` and `server_type` asked for |
| `RwrUtils.TypeListing` | rwr/utils.py:68-74 | the maps listed for one type all pass the filter and carry that type |
| `RwrUtils.Listing` | rwr/utils.py:58-76 | every listed map passes the `has_minimap` filter |
| `RwrUtils.GetMaps` | rwr/utils.py:58-76 | the nested loops yield the flattened filtered listing, in table order |
| `RwrUtils.ListingComplete` | rwr/utils.py:58-76 | every map the filter keeps is listed, tagged with its id and type |
| `RwrUtils.GetMapListed` | rwr/utils.py:58-89 | the map `get_map` finds is listed by `get_maps` whenever the filter keeps it |
| `RwrPlayer.ApplicableRanks` | rwr/player.py:108 | the ranks table of the database's ranks country, or the `KeyError` of an unknown database or country |
| `RwrPlayer.GetRankObject` | rwr/player.py:104-117 | a listed id gives a rank with that id, name and XP from the table; an unlisted one gives `None` or the empty rank, as `return_none` says |
| `RwrPlayer.RankKeysDistinct` | rwr/player.py:110 | two different rank ids never read the same table entry |
| `RwrPlayer.RankObjectId` | rwr/player.py:104-117 | with `return_none` unset there is always a rank; a rank carries the id asked for or is the empty rank |
| `RwrPlayer.GetNextRank` | rwr/player.py:78-88 | `None` without a rank id, `False` at rank 16, otherwise the (possibly empty) rank object for id + 1 |
| `RwrPlayer.XpToNextRank` | rwr/player.py:90-95 | present exactly when there is a next rank object, and then player XP plus the figure equals the next rank's XP |
| `RwrPlayer.XpToNextRankOf` | rwr/player.py:78-95 | below rank 16 the figure is the next rank's XP minus the player's, or `-xp` when the next id is missing from the table |
| `RwrPlayer.GameTypeFromDatabase` | rwr/player.py:119-124 | `invasion` maps to `vanilla`; every other database is its own game type |
| `RwrPlayer.GameTypeIdempotent` | rwr/player.py:119-124 | mapping a game type again changes nothing |
| `RwrPlayer.SquadMatesCurrent` | rwr/player.py:150 | `floor(xp/1000)` below 10 000 XP, 10 from there on: never above 10 |
| `RwrPlayer.SquadMatesMonotone` | rwr/player.py:150 | more XP never means fewer squad mates |
| `RwrPlayer.Tagged` | rwr/player.py:137-146 | every item of a threshold is tagged with that threshold and unlocked exactly when XP reaches it |
| `RwrPlayer.CategoryList` | rwr/player.py:135-146 | each listed item is unlocked exactly when the player's XP reaches its required XP |
| `RwrPlayer.CountUnlocked` | rwr/player.py:143-144 | the unlocked count never exceeds the listed items |
| `RwrPlayer.CountUnlockedAppend` | rwr/player.py:143-144 | the unlocked count adds up over concatenated lists |
| `RwrPlayer.CategoryListLength` | rwr/player.py:128-146 | the list of a category holds exactly `max` items, the category's total in the table |
| `RwrPlayer.CurrentAtMostMax` | rwr/player.py:128-146 | `current <= max` for every category |
| `RwrPlayer.CurrentMonotone` | rwr/player.py:138-144 | more XP never unlocks fewer items |
| `RwrPlayer.TaggedCount` | rwr/player.py:138-144 | a threshold contributes all its items when XP reaches it, none otherwise |
| `RwrPlayer.AllUnlocked` | rwr/player.py:128-146 | when XP reaches every threshold, `current == max` |
| `RwrPlayer.TagItems` | rwr/player.py:137-146 | the inner loop appends the tagged items and keeps `current` equal to the unlocked count |
| `RwrPlayer.ComputeCategory` | rwr/player.py:128-165 | the loop over thresholds builds exactly the category's list, count and total |
| `RwrPlayer.GetUnlocks` | rwr/player.py:126-167 | `KeyError` for an unknown game type; otherwise the squad mates and the four categories |
| `RwrPlayer.PlayingServerIndex` | rwr/player.py:67-76 | the first server whose player list names the player, or none |
| `RwrPlayer.FirstListing` | rwr/player.py:67-76 | for any server record and its player list: the index of the first server whose list names the player, no earlier one naming it, and none exactly when no server does |
| `RwrPlayer.Player.SetPlayingOnServer` | rwr/player.py:67-76 | for any server record and its player list, picks the first server listing the username, and leaves the field unchanged when none does; the same method serves the legacy players of `rwr.py` and `rwr_scrapers.py` |
| `RwrServer.Realms` | rwr/server.py:77 | the realms of the players-list databases, one per database, in table order |
| `RwrServer.GetDatabase` | rwr/server.py:129-136 | a ranked server gets the key of a database with its realm, always found when the realm is listed; an unranked one gets `None` |
| `RwrServer.RankedHasDatabase` | rwr/server.py:77-79 | a server is ranked exactly when `get_database` finds its database, and that database has a name |
| `RwrServer.PlayerNames` | rwr/server.py:105 | one entry per `','`-separated piece of the cell, each stripped |
| `RwrServer.PlayersList` | rwr/server.py:99-106 | `[]` without a row or with an empty cell; otherwise a sorted permutation of the stripped names |
| `RwrServer.PlayersListOrderIndependent` | rwr/server.py:104-106 | the player list does not depend on the order of the names in the cell |
| `RwrServer.OptionalText` | rwr/server.py:69-70 | `comment`/`website`: `None` exactly for empty text, otherwise the stripped text |
| `RwrServer.Counts` | rwr/server.py:62-65 | the current count is clamped at 0, `max` is kept and `free == max - current` |
| `RwrServer.IntOf` | rwr/server.py:34 | `int(node.text)`: an integer exactly for a present text that parses, `TypeError` for an empty element, `ValueError` otherwise |
| `Decimal.ParseIntUnderscore` | rwr/server.py:34 | `int()` ignores a single underscore between two digit runs, so `"1_000"` and `"1000"` both read as 1000 |
| `RwrServer.IntsError` | rwr/server.py:34-64 | the exception of the first integer field that fails, in the order port, bots, current players, max players; never `AttributeError` |
| `RwrServer.Summary` | rwr/server.py:108-113 | `<type name> - <map display name> - <current>/<max>`; no contract of its own, `Load` and `LoadMapDisplay` state what it is given |
| `RwrServer.CountsFreeNonNegative` | rwr/server.py:63-65 | with at least as many slots as players, free slots are never negative |
| `RwrServer.MapOf` | rwr/server.py:42-51 | the map keeps its id; it has a display name exactly when type and id are both known, else it keeps the class defaults |
| `RwrServer.MapDisplay` | rwr/server.py:51 | the map's display name when assigned, otherwise its id (corrected fallback) |
| `RwrServer.Build` | rwr/server.py:30-114 | the assembled server: `ip_and_port` is `ip:port`, counts are consistent, dedicated iff text `'1'`, ranked iff the realm is listed, and a database exactly when ranked |
| `RwrServer.LoadAsWritten` | rwr/server.py:12-122 | as written: the integer fields fail as in `Load`, and `AttributeError` is raised whenever the map is not in the table (finding) |
| `RwrServer.Load` | rwr/server.py:12-122 | corrected: fails exactly when an integer field is empty or not an integer, with the exception of the first such field (`TypeError` for an empty `port`); an empty `mode` gives `N/A` names; every derived field (name, counts, list, flags, mode names, database, star prefix, summary) as the source assigns it |
| `RwrServer.LoadMapDisplay` | rwr/server.py:51 | the summary names a known map by its name or id, and an unknown map by its id |
| `RwrServer.NodePathOf` | rwr/server.py:37 | a `/<type>/maps/<id>` path survives the `'//'` clean-up and reads as that type and id |
| `RwrServer.UnknownMapRaises` | rwr/server.py:37-51 | a well-formed path `/vanilla/maps/map99` whose map is missing leaves `name_display` unset |
| `RwrScraperLists.TruthyEntries` | rwr/scraper.py:82-86 | the entries of exactly the servers whose value is truthy |
| `RwrScraperLists.GetListStep` | rwr/scraper.py:82-92 | one more server adds its entry exactly when its value is truthy and not yet handled |
| `RwrScraperLists.HandledSpec` | rwr/scraper.py:79-92 | the loop keeps the first entry of each distinct truthy value, in server order |
| `RwrScraperLists.GetList` | rwr/scraper.py:76-94 | `_get_list` returns the option list: distinct truthy values, first label seen, sorted by label |
| `Sorting.SortByStable` | rwr/scraper.py:94 | `sorted(..., key=...)` is stable: for every label, the entries carrying it come out in their input order |
| `RwrScraperLists.HandledList` | rwr/scraper.py:94 | sorting what the loop kept by label gives the option list |
| `RwrScraperLists.OptionList` | rwr/scraper.py:76-94 | the distinct truthy values, each with its first label, sorted by label; `OptionListElements`, `OptionListSorted`, `OptionListDistinct`, `OptionListCovers` and `OptionListFirst` state what it holds |
| `RwrScraperLists.OptionListElements` | rwr/scraper.py:76-94 | the option list is a reordering of the first entries of the distinct truthy values |
| `RwrScraperLists.OptionListSorted` | rwr/scraper.py:94 | the option list is sorted by label |
| `RwrScraperLists.OptionListDistinct` | rwr/scraper.py:86 | no value is offered twice |
| `RwrScraperLists.OptionListCovers` | rwr/scraper.py:76-94 | the values offered are exactly the truthy values of the servers |
| `RwrScraperLists.OptionListFirst` | rwr/scraper.py:86-92 | each entry carries the label of the first server with its value |
| `RwrScraperLists.TypePairs` | rwr/scraper.py:191-196 | the type list reads each server's type (false for winter and PvP) and type name |
| `RwrScraperLists.ModePairs` | rwr/scraper.py:199-204 | the mode list reads each server's mode and long mode name |
| `RwrScraperLists.TypeListEntries` | rwr/scraper.py:191-196 | the type list offers exactly the non-empty types of the servers other than `vanilla.winter` and `pvp` |
| `RwrScraperLocations.InContinent` | rwr/scraper.py:155-166 | the located servers of one continent, in order |
| `RwrScraperLocations.InContinentMember` | rwr/scraper.py:155-166 | a server is among those of a continent exactly when it is located on it |
| `RwrScraperLocations.CountriesIn` | rwr/scraper.py:165-166 | the countries of a continent: the first located server of each, all on that continent |
| `RwrScraperLocations.CountryEntries` | rwr/scraper.py:178-182 | one `country:<code>` entry per collected country, in discovery order |
| `RwrScraperLocations.Groups` | rwr/scraper.py:170-186 | one group per collected continent |
| `RwrScraperLocations.CollectedSpec` | rwr/scraper.py:155-166 | the first loop collects the first server of each continent, and for each continent the first server of each of its countries |
| `RwrScraperLocations.ServersLocations` | rwr/scraper.py:150-188 | `get_all_servers_locations` returns the reference grouped list, or the `TypeError` of a located server without continent |
| `RwrScraperLocations.CollectLocations` | rwr/scraper.py:155-166 | the first loop yields the collected continents and countries of the located servers |
| `RwrScraperLocations.CollectServer` | rwr/scraper.py:159-166 | one located server: its continent is added when new and its country when new to that continent |
| `RwrScraperLocations.CollectedGroups` | rwr/scraper.py:155-186 | what the first loop collects gives a country list for every continent and the reference groups |
| `RwrScraperLocations.GroupsFromSpec` | rwr/scraper.py:170-186 | groups built from the collected tables are the reference groups |
| `RwrScraperLocations.BuildGroups` | rwr/scraper.py:168-188 | the second loop fails exactly when a collected continent code is `None`, else returns the group of each collected continent in order |
| `RwrScraperLocations.AppendGroup` | rwr/scraper.py:170-186 | one continent of the second loop: the groups built so far are extended by that continent's group |
| `RwrScraperLocations.BuildGroup` | rwr/scraper.py:171-184 | one group: `continent:<code>`, its name, and its country entries sorted by label |
| `RwrScraperLocations.GroupsValues` | rwr/scraper.py:173 | a group value `continent:<code>` is present exactly when a collected continent has that code |
| `RwrScraperLocations.LocatedHasContinent` | rwr/scraper.py:156-163 | a continent is collected exactly when some server with a country is on it |
| `RwrScraperLocations.LocationsFailure` | rwr/scraper.py:159-173 | the call fails exactly when a server with a country has no continent |
| `RwrScraperLocations.LocationsContinents` | rwr/scraper.py:150-188 | groups are sorted by label and there is a group for a continent exactly when a located server is on it |
| `RwrScraperLocations.LocationsCountries` | rwr/scraper.py:178-184 | a continent's group is sorted by label and lists a country exactly when a located server of that continent is in it |
| `RwrScraperLocations.GroupOfResult` | rwr/scraper.py:168-188 | every group of the result is the group of a collected, non-`None` continent |
| `RwrScraperLocations.GroupCountries` | rwr/scraper.py:178-184 | the sorted entries of a continent name exactly the countries of its located servers |
| `RwrScraperLocations.EntriesOfCountries` | rwr/scraper.py:178-182 | the entries have a country exactly when one of the collected servers is in it |
| `RwrScraper.ServerByIpAndPort` | rwr/scraper.py:113-134 | `ValueError` unless given one or two arguments; otherwise the first server with that `ip:port` (or that ip and port), or `None` |
| `RwrScraper.ServerByName` | rwr/scraper.py:137-147 | the first server whose lower-cased name contains the lower-cased query, or `None` |
| `RwrScraper.NameMatchesItself` | rwr/scraper.py:141-145 | a server is always found by its own name |
| `RwrScraper.LocationMatchOf` | rwr/scraper.py:272-284 | `continent:xx` compares the continent code, `country:xx` and a bare code the country code |
| `RwrScraper.TypeMatch` | rwr/scraper.py:289-295 | `any` keeps every server; a `vanilla*` filter keeps `vanilla*` and `pvp` servers; another type must be equal; a typeless server raises under a `vanilla*` filter |
| `RwrScraper.KeepSatisfies` | rwr/scraper.py:254-312 | `_filter_server` returns true exactly when the server meets every given criterion |
| `RwrScraper.KeepNoFilters` | rwr/scraper.py:254-312 | without criteria every server is kept |
| `RwrScraper.Slice` | rwr/scraper.py:318-319 | `servers[:limit]`, a negative limit counting from the end as Python does |
| `RwrScraper.FilterServers` | rwr/scraper.py:252-321 | the servers every criterion keeps, in list order, cut to a non-zero limit, or `AttributeError` when a criterion raises; `FilterServersSatisfies` states what it holds |
| `RwrScraper.FilterServersSatisfies` | rwr/scraper.py:252-321 | an error exactly when some server raises; otherwise an order-preserving prefix of the servers meeting every criterion, all of them without a truthy limit |
| `RwrScraper.FilterSame` | rwr/scraper.py:314 | filtering on `_filter_server` and on the criteria gives the same servers |
| `RwrScraper.TypelessServerRaises` | rwr/scraper.py:291 | a server without game type raises `AttributeError` under a `vanilla` type filter |
| `RwrScraper.Counters` | rwr/scraper.py:324-332 | active servers never exceed the total, which is the number of servers |
| `RwrScraper.CountersBound` | rwr/scraper.py:324-332 | with non-negative counts, online players are at least the active servers, and none online means none active |
| `RwrScraper.PlayersArguments` | rwr/scraper.py:381-390 | accepted exactly when `0 < limit <= 100`, `start >= 0` and the database is valid, with the source's messages in its order |
| `RwrScraper.PlayersOrNone` | rwr/scraper.py:407-410 | the players, or `[]` exactly when a truthy target is not among them |
| `RwrScraper.LastPlayerMatch` | rwr/scraper.py:447-456 | the last match is on a server with players and is a lower-cased name of it containing the target |
| `RwrScraper.LastInList` | rwr/scraper.py:451-456 | the last lower-cased player name containing the target, none exactly when no name contains it |
| `RwrScraper.CurrentServerOfPlayer` | rwr/scraper.py:439-458 | the last matching player's name upper-cased and its server; with no match the query upper-cased and `None` |
| `RwrScraper.LastPlayerMatchStep` | rwr/scraper.py:447-456 | a later server with a match overrides the earlier ones |
| `RwrScraper.ScanPlayers` | rwr/scraper.py:453-456 | the inner loop keeps the last match of the server, or what was found before |
| `RwrScraper.LowerAll` | rwr/scraper.py:451 | each player name lower-cased, in order |
| `RwrScraper.NoPlayerMatch` | rwr/scraper.py:447-456 | when no name contains the target, there is no match |
| `RwrLegacy.NextRankOf` | rwr.py:642-659 | `None` without a rank id, `False` at 16, `None` when id + 1 is not in `RANKS`, otherwise `RANKS[id+1]` tagged with its id (same code in rwr_scrapers.py:415-432) |
| `RwrLegacy.NextRankExists` | rwr.py:642-659 | there is a next rank exactly for ids -1 to 15, and `False` exactly at 16 |
| `RwrLegacy.RanksAscending` | rwr.py:642-659 | the next rank always needs more XP than the current one |
| `RwrLegacy.XpToNextRankOfRank` | rwr.py:661-667 | a player within its rank's XP band needs a positive amount, which added to its XP gives the next rank's XP (same code in rwr_scrapers.py:434-440) |
| `RwrLegacy.XpToHighestRank` | rwr.py:661-667 | no figure at the highest rank or without a rank id |
| `RwrLegacy.Unlocks` | rwr.py:677-695 | the radio calls of the thresholds before the first one above the player's XP; every other category empty and no squad mates |
| `RwrLegacy.RadioCallsSorted` | rwr.py:686-691 | on a table with ascending thresholds, stopping at the first threshold above XP collects exactly the radio calls of every threshold at most XP |
| `RwrLegacy.NoneUpTo` | rwr.py:686-688 | when every threshold is above XP there are no radio calls |
| `RwrLegacy.RadioCallsMonotone` | rwr.py:686-691 | more XP collects a longer prefix of radio calls |
| `RwrLegacy.LeadingNumberOf` | rwr.py:13 | a digit run followed by a non-digit is read whole |
| `RwrLegacy.PlayerCounts` | rwr.py:550-558 | a matching cell gives its two numbers and `free = max - current`, unclamped; otherwise the class defaults 0, 0, 0 |
| `RwrLegacy.PlayerCountsOf` | rwr.py:550-558 | the cell `<current>/<max>...` gives exactly those counts (same code in rwr_scrapers.py:323-331) |
| `RwrLegacy.CountPatternOf` | rwr.py:13 | `\d+/\d+` at the start of the text reads both numbers |
| `RwrLegacy.PlayerCountsFree` | rwr.py:556 | free slots are negative exactly when the cell shows more players than slots |
| `RwrLegacy.FirstAtAddress` | rwr.py:387-395 | the first server with both the ip and the port, or none |
| `RwrLegacy.SearchServer` | rwr.py:387-395 | the first server matching both ip and port, otherwise `None` (same code in rwr_scrapers.py:216-224) |
| `RwrLegacy.PlayersOnServersCounts` | rwr.py:397-404 | the players sum and the count of non-empty servers, never more than the servers (same code in rwr_scrapers.py:226-233) |
| `RwrLegacy.CountsBound` | rwr.py:397-404 | with non-negative counts, players are at least the non-empty servers, and no players exactly when no server is non-empty |
| `RwrLegacy.ListedMember` | rwr.py:406-418 | a name is gathered exactly when some server lists it |
| `RwrLegacy.AllPlayers` | rwr.py:406-418 | the distinct names of all non-empty server player lists |
| `RwrLegacy.ColonSplit` | rwr.py:531 | two `ip:port` texts whose ports have no colon are equal exactly when ip and port are |
| `RwrLegacy.PortTextNoColon` | rwr.py:531 | the decimal text of a port never holds a colon |
| `RwrLegacy.RankedIsOfficial` | rwr.py:532 | every ranked `ip:port` of `rwr.py` is on an official IP of `rwr_scrapers.py` |
| `RwrLegacy.OfficialNotRanked` | rwr_scrapers.py:305 | `is_official` looks at the IP alone: `45.32.63.85:1236` is official but not ranked |
| `RwrLegacy.PlayingIffGathered` | rwr_scrapers.py:404-413 | a legacy player is found on some server exactly when the gathered names of all servers hold its username (same code in rwr.py:631-641) |
| `RwrLegacy.IsOfficial` | rwr_scrapers.py:305 | a server is official exactly when its IP is one of `OFFICIAL_SERVERS`; `RankedIsOfficial` and `OfficialNotRanked` relate it to the ranked servers |
| `RwrMap.Nse` | rwr/map.py:163-166 | defined exactly for the two known prefixes, as `{uri}tag` with the prefix's URI; any other prefix raises `KeyError` |
| `RwrMap.NseTag` | rwr/map.py:163-166 | splitting a namespaced tag at its first `}` gives back the URI part and the tag |
| `RwrMap.Entry` | rwr/map.py:171 | a description entry raises `IndexError` exactly when its stripped text holds no `=` |
| `RwrMap.Collect` | rwr/map.py:171 | the comprehension succeeds exactly when every entry does, keeping them in order, and otherwise fails with the first failing entry's exception |
| `RwrMap.EntriesRefused` | rwr/map.py:171 | the entries fail exactly when some segment has no `=`, and then with `IndexError` |
| `RwrMap.ToDictLast` | rwr/map.py:171 | in the dict comprehension the last entry with a given key wins |
| `RwrMap.ToDictKeys` | rwr/map.py:171 | the dict's keys are exactly the keys of the entries |
| `RwrMap.Renders` | rwr/map.py:168-171 | rendering pairs as `key=value` keeps one text per pair, in order |
| `RwrMap.ParseAttrs` | rwr/map.py:168-171 | `parse_attrs` raises exactly when some non-empty `;` segment has no `=`, and the exception is then `IndexError` |
| `RwrMap.RenderEnds` | rwr/map.py:171 | a `key=value` of clean key and value neither starts nor ends with a space and holds no `;` |
| `RwrMap.RenderSplit` | rwr/map.py:171 | `split('=', maxsplit=1)` of `key=value` with no `=` in the key gives back key and value |
| `RwrMap.RenderEntry` | rwr/map.py:171 | a rendered clean pair is read back as that pair |
| `RwrMap.EntriesRenders` | rwr/map.py:171 | a sequence of rendered clean pairs is read back as those pairs |
| `RwrMap.ParseAttrsRoundTrip` | rwr/map.py:168-171 | `parse_attrs` of `k1=v1;k2=v2;...` is the dict of those pairs, later keys winning |
| `RwrMap.RendersShape` | rwr/map.py:171 | every rendered clean pair is a non-empty, `;`-free, unpadded segment |
| `RwrMap.SegmentsOfJoin` | rwr/map.py:171 | stripping, splitting at `;` and dropping empty segments gives back the joined non-empty, `;`-free parts |
| `RwrMap.JoinEnds` | rwr/map.py:171 | a join of non-empty parts starts with the first part's first character and ends with the last part's last one |
| `RwrMap.ParseAttrsEmpty` | rwr/map.py:171 | an empty description and a lone `;` give the empty dict |
| `RwrMap.RFind` | rwr/map.py:151 | the index of the last occurrence of a character, or -1 exactly when it does not occur |
| `RwrMap.SplitextRoot` | rwr/map.py:151 | `os.path.splitext(...)[0]` is a prefix of the path, and what it removes is a final `.ext` without `.` or `/` |
| `RwrMap.SplitextOf` | rwr/map.py:151 | the root of `stem.ext` is `stem` when the stem has no `/` and no leading dot |
| `RwrMap.Get` | rwr/map.py:69-70 | `attrs[k] if k in attrs else None`: present exactly when the key is, with its value |
| `RwrMap.GroupKindOf` | rwr/map.py:37-45 | an unlabelled group is ignored, `materials` is the materials group, `bases...` and `layer...` labels holding a `.` are bases and layer groups split at their first `.`, and every other label is ignored |
| `RwrMap.GroupKindOfLabel` | rwr/map.py:42-43 | the label `<group id>.<game type>` of a bases group splits back into that id and game type |
| `RwrMap.GeneralInfo` | rwr/map.py:60-70 | only the name and description change, and the only exception is the `IndexError` of a bad description |
| `RwrMap.MaterialsFrom` | rwr/map.py:49-58 | the materials group changes only the name and description and raises only `IndexError` |
| `RwrMap.BaseOf` | rwr/map.py:95-98 | a capture zone raises `ValueError` exactly when its `faction_index` is not an integer; its name and faction index are the described ones or `None`, and it is capturable unless `capturable` is given as anything but `1` |
| `RwrMap.WithZone` | rwr/map.py:76-80 | the group's capture-zone list exists afterwards |
| `RwrMap.BasesOfErrors` | rwr/map.py:88-101 | a refused capture zone raises `IndexError` (its description) or `ValueError` (its `faction_index`) |
| `RwrMap.AddZones` | rwr/map.py:82-103 | the group's list exists afterwards, and an exception is the outcome of one of the described rectangles |
| `RwrMap.BasesFrom` | rwr/map.py:82-103 | the bases loop changes only the capture-zone lists, creates no new one, and raises only `IndexError` or `ValueError` |
| `RwrMap.AddZonesAppends` | rwr/map.py:82-103 | capture zones are only appended to the group's own list; the other lists and the rest of the data stay as they were |
| `RwrMap.AddZonesError` | rwr/map.py:82-103 | the bases loop ends without an exception exactly when every described rectangle yields a capture zone |
| `RwrMap.BasesSkipped` | rwr/map.py:82-86 | rectangles without a description, and children that are not rectangles, are skipped |
| `RwrMap.AddBases` | rwr/map.py:82-103 | the loop over the group's children leaves the data and exception that `BasesFrom` gives |
| `RwrMap.SpawnCount` | rwr/map.py:120-132 | one soldier spawn point per rectangle child: never more than the children |
| `RwrMap.SpawnCountStep` | rwr/map.py:128-132 | the count from a child on is that child's 1 or 0 plus the count after it |
| `RwrMap.VehicleType` | rwr/map.py:150-153 | corrected: the type is the `key` without its extension, else the `tag`, else `None` |
| `RwrMap.VehicleTypesAsWritten` | rwr/map.py:142-161 | as written: one type per described rectangle when it does not raise |
| `RwrMap.StaleVehicleType` | rwr/map.py:150-161 | a rectangle naming neither `key` nor `tag` inherits the previous rectangle's type, or raises `UnboundLocalError` when it comes first; the corrected reading gives it no type |
| `RwrMap.AttrsOfErrors` | rwr/map.py:146-148 | a refused vehicle description raises `IndexError` |
| `RwrMap.FirstRefused` | rwr/map.py:142-161 | the position of the first refused description: every earlier one parses, and the one there is refused |
| `RwrMap.Appended` | rwr/map.py:150-161 | one vehicle type per description before the first refused one, each the type of that description |
| `RwrMap.AddTypesData` | rwr/map.py:142-161 | only the group's vehicle list changes, and it grows by exactly those types |
| `RwrMap.AddTypesError` | rwr/map.py:142-161 | no exception exactly when no description is refused; otherwise the first refused description's exception |
| `RwrMap.VehiclesFrom` | rwr/map.py:134-161 | the vehicles loop changes only the vehicle lists, creates no new one, and raises only `IndexError` |
| `RwrMap.VehiclesFromSpec` | rwr/map.py:134-161 | the group's list grows by one type per described rectangle up to the first refused description, nothing else changes, and the exception is that description's |
| `RwrMap.AddVehicles` | rwr/map.py:142-161 | the loop over the layer's children leaves the data and exception that `VehiclesFrom` gives |
| `RwrMap.AddVehicle` | rwr/map.py:142-161 | one child: a rectangle without description is skipped, a described one appends its type or stops with the exception of its description |
| `RwrMap.WithSoldiers` | rwr/map.py:122-126 | the group's soldier spawn list exists afterwards |
| `RwrMap.WithVehicles` | rwr/map.py:136-140 | the group's vehicle spawn list exists afterwards |
| `RwrMap.LayerStep` | rwr/map.py:113-118 | one layer changes only the spawn-point tables, drops none of them, and raises only `IndexError` |
| `RwrMap.LayersFrom` | rwr/map.py:105-118 | a layer group changes only the spawn-point tables, drops none of them, and raises only `IndexError` |
| `RwrMap.GroupStep` | rwr/map.py:37-45 | one group drops no group table and raises only `IndexError` or `ValueError` |
| `RwrMap.GroupsFrom` | rwr/map.py:29-47 | the whole parse drops no group table and raises only `IndexError` or `ValueError`, never `KeyError` or `UnboundLocalError` |
| `RwrMap.MaterialsSkipped` | rwr/map.py:51-58 | children of the materials group not labelled `#general` change nothing |
| `RwrMap.LayersSkipped` | rwr/map.py:109-118 | layers that are unlabelled, not `svg:g`, or neither `spawnpoints` nor `vehicles` change nothing |
| `RwrMap.IgnoredGroup` | rwr/map.py:37-45 | an unlabelled or unrecognised group changes nothing |
| `RwrMap.NoGroups` | rwr/map.py:34-47 | a root without `svg:g` children parses to the data it started from |
| `RwrMap.MapObjectsParser.constructor` | rwr/map.py:6-16 | a new parser starts from empty data |
| `RwrMap.MapObjectsParser.Parse` | rwr/map.py:29-47 | the loop over the root's groups leaves the data and the exception that the group-by-group definition gives |
| `RwrMap.MapObjectsParser.ParseMaterialsGroup` | rwr/map.py:49-70 | the materials loop leaves data and exception as the element-by-element definition gives |
| `RwrMap.MapObjectsParser.ParseBasesGroup` | rwr/map.py:72-103 | the bases loop creates the group's list, then appends as the element-by-element definition gives |
| `RwrMap.AddBase` | rwr/map.py:82-103 | one child: a rectangle without description is skipped, a described one appends its capture zone or stops with the exception its description raises |
| `RwrMap.ParseBase` | rwr/map.py:88-101 | a described rectangle yields the capture zone its parsed attributes give, or the exception parsing or reading them raises |
| `RwrMap.MapObjectsParser.ParseLayerGroup` | rwr/map.py:105-118 | the layers loop leaves data and exception as the layer-by-layer definition gives |
| `RwrMap.MapObjectsParser.ParseLayer` | rwr/map.py:113-118 | one labelled layer: spawn points, vehicles or nothing, as `LayerStep` gives |
| `RwrMap.MapObjectsParser.ParseSpawnpoints` | rwr/map.py:120-132 | the group's soldier count, created at 0 when missing, grows by the number of rectangles of the layer; nothing else changes |
| `RwrMap.MapObjectsParser.ParseVehicles` | rwr/map.py:134-161 | corrected: creates the group's list, then leaves data and exception as `VehiclesFrom` gives, whose partner `VehiclesFromSpec` says what that is |
| `Helpers.Split` | helpers.py:12-15 | hours, minutes and seconds are below 24, 60 and 60 and recompose the floored remainder of a day; days are the quotient truncated toward zero, as `int()` of the division gives |
| `Helpers.SplitAddsUp` | helpers.py:12-15 | for a non-negative count the four components add back up to it |
| `Helpers.Pad2` | helpers.py:26-29 | `{:>02}` of a number below 100 is two digits reading that number |
| `Helpers.HumanizeSeconds` | helpers.py:7-33 | the text is empty exactly for zero seconds |
| `Helpers.NonZeroShowsPart` | helpers.py:19-31 | a non-zero count always shows at least one part, so `zip(*ret)` never sees an empty list |
| `Helpers.PartsShown` | helpers.py:17-29 | one part per non-zero component, days first as `<d>d` and seconds last as two digits and `s` |
| `Helpers.Threes` | helpers.py:41 | a digit run whose length is a multiple of three cuts into groups of three |
| `Helpers.Groups` | helpers.py:41 | the `,d` grouping: a leading group of one to three digits, then groups of three |
| `Helpers.RemoveSpaces` | helpers.py:41 | no space is left |
| `Helpers.RemoveSpacesAppend` | helpers.py:41 | removing spaces distributes over concatenation |
| `Helpers.RemoveSpacesDigits` | helpers.py:41 | a digit run has no space to remove |
| `Helpers.ThreesConcat` | helpers.py:41 | the groups of three concatenate back to the digits |
| `Helpers.GroupsConcat` | helpers.py:41 | the `,d` groups concatenate back to the digits |
| `Helpers.RemoveSpacesJoin` | helpers.py:41 | removing the separating spaces of joined digit groups gives their concatenation |
| `Helpers.HumanizeIntegerDigits` | helpers.py:36-41 | removing the separating spaces of `humanize_integer` gives back the integer's decimal text, zero and negatives included |
| `RwrsEvent.Addresses` | rwrs/event.py:29 | no addresses for an empty text, otherwise comma-free pieces that join back to the text with commas |
| `RwrsEvent.ServerAt` | rwrs/event.py:78-79 | the first server whose `ip:port` is the address, or `None` exactly when none is |
| `RwrsEvent.Lookups` | rwrs/event.py:78-80 | one lookup per stored address, in order |
| `RwrsEvent.Shown` | rwrs/event.py:63-82 | the event is hidden from five hours after its start; otherwise it is ongoing from its start, shows player counts from fifteen minutes before, and lists its servers only when asked |
| `RwrsEvent.Windows` | rwrs/event.py:72-77 | an ongoing event shows player counts; ongoing means between the start and five hours after it, and counts alone are shown in the fifteen minutes before the start |
| `RwrsEvent.EventStore.constructor` | rwrs/event.py:7 | no event is stored at first |
| `RwrsEvent.EventStore.Remove` | rwrs/event.py:10-20 | true exactly when an event was stored; none is stored afterwards |
| `RwrsEvent.EventStore.Set` | rwrs/event.py:23-35 | an unparseable datetime raises and keeps the stored event; otherwise the event is stored with its split server addresses |
| `RwrsEvent.EventStore.SetFromDiscordGuard` | rwrs/event.py:38-42 | aborts exactly when a manually set event is stored |
| `RwrsEvent.EventStore.Get` | rwrs/event.py:63-82 | `None` without a stored event, otherwise the stored event as shown at that instant |
| `RwrsMotd.FirstBreak` | rwrs/motd.py:33 | the index of the first line boundary `splitlines` recognises, or -1 when there is none |
| `RwrsMotd.Read` | rwrs/motd.py:30-43 | no file gives `None` |
| `RwrsMotd.UniversalNoReturn` | rwrs/motd.py:32 | text without a carriage return is unchanged by universal newlines |
| `RwrsMotd.SplitLinesOfNewlines` | rwrs/motd.py:33 | on text whose only line boundaries are `\n` and that does not end with one, `splitlines` is `split('\n')` |
| `RwrsMotd.TypeIsOneLine` | rwrs/motd.py:8-11 | a message type holds no line boundary |
| `RwrsMotd.FirstBreakAfter` | rwrs/motd.py:33 | the first line boundary of `a\nb` is the written `\n` when `a` has none |
| `RwrsMotd.WrittenLines` | rwrs/motd.py:23-33 | the lines of what `save` writes are the type line, then the message's own lines |
| `RwrsMotd.WrittenNoReturn` | rwrs/motd.py:27 | what `save` writes carries no carriage return when the message does not |
| `RwrsMotd.SplitAtBreak` | rwrs/motd.py:33 | `splitlines` cuts at the first line boundary |
| `RwrsMotd.RoundTrip` | rwrs/motd.py:23-43 | `get` after `save` gives back the type and the message, for a message of `\n`-separated lines that does not end with a newline |
| `RwrsMotd.OneLineShowsNothing` | rwrs/motd.py:37-38 | a file holding only the type line, or the type and an empty message, gives `None` |
| `RwrsMotd.MotdFile.constructor` | rwrs/motd.py:5 | no file at first |
| `RwrsMotd.MotdFile.Remove` | rwrs/motd.py:14-20 | true exactly when the file existed; it is gone afterwards |
| `RwrsMotd.MotdFile.Save` | rwrs/motd.py:23-27 | an unknown type raises `ValueError` and leaves the file alone; otherwise the file holds the type line and the message |
| `RwrsMotd.MotdFile.Get` | rwrs/motd.py:30-43 | what the file's text reads as, and a returned type is always a known one |
| `RwrsModels.Encode` | rwrs/models.py:157-180 | the setter raises exactly for a non-empty list; a falsy value or a `str` is stored as it is under `STRING`; nothing is ever tagged `BOOL`, because a `bool` is an `int` in Python |
| `RwrsModels.Decode` | rwrs/models.py:138-155 | a falsy stored value, or any value of a `STRING` variable, is returned as it is |
| `RwrsModels.IntegerRoundTrip` | rwrs/models.py:138-180 | a non-zero `int` is stored as its decimal text under `INTEGER` and read back as itself |
| `RwrsModels.RawRoundTrip` | rwrs/models.py:138-180 | a `str` or a falsy value is stored under `STRING` and read back as itself |
| `RwrsModels.TrueAsWritten` | rwrs/models.py:160-163 | as written, `True` is stored as `INTEGER` `"True"`, whose reading raises `ValueError` |
| `RwrsModels.EncodeChecked` | rwrs/models.py:157-180 | corrected setter: the bool test comes before the int test, so `True` is tagged `BOOL` |
| `RwrsModels.CheckedRoundTrip` | rwrs/models.py:138-180 | with the corrected setter every value it accepts is read back as itself |
| `RwrsModels.Variable.constructor` | rwrs/models.py:129-136 | a new variable holds nothing, as a `STRING` |
| `RwrsModels.Variable.Value` | rwrs/models.py:138-155 | the getter reads the stored text under its type tag |
| `RwrsModels.Variable.SetValue` | rwrs/models.py:157-180 | the corrected setter raises and keeps the old type and value exactly for a non-empty list; otherwise it stores what `EncodeChecked` gives, and the getter then returns the value set |
| `RwrsModels.PeakNamesDistinct` | rwrs/models.py:245-250 | the eight peak variable names are distinct |
| `RwrsModels.PeaksForDisplay` | rwrs/models.py:243-260 | every peak name is present afterwards, as `'?'` when not stored, as a formatted date for a `_date` name, otherwise as stored; other stored values are kept |
| `RwrsModels.HashOf` | rwrs/models.py:707-714 | the hash is a 32-bit value |
| `RwrsModels.Hash` | rwrs/models.py:707-714 | the masked loop computes the hash of the username, below `2^32` |
| `RwrsModels.MaskStep` | rwrs/models.py:712 | masking after each step gives the same result as masking once at the end |
| `RwrsModels.Djb2` | rwrs/models.py:707-714 | the reference djb2 value without the mask, `h * 33 + c` from 5381; `HashIsDjb2` relates the masked loop to it |
| `RwrsModels.HashIsDjb2` | rwrs/models.py:707-714 | the masked loop is djb2 (`h * 33 + c` from 5381) reduced modulo `2^32` |
| `RwrsModels.PlayingOnServer` | rwrs/models.py:308-320 | the first server whose non-empty player list names the friend, or `None` exactly when none does |
| `RwrsModels.PlayingFriends` | rwrs/models.py:545 | exactly the friends who are playing |
| `RwrsModels.IdleFriends` | rwrs/models.py:546 | exactly the friends who are not playing |
| `RwrsModels.StatusPartition` | rwrs/models.py:542-548 | the playing and the idle friends together are the friends, each once as often as stored |
| `RwrsModels.PlayingAppend` | rwrs/models.py:545 | the playing filter distributes over concatenation |
| `RwrsModels.IdleAppend` | rwrs/models.py:546 | the idle filter distributes over concatenation |
| `RwrsModels.SortedFilters` | rwrs/models.py:542-548 | both lists keep the username order of the friends |
| `RwrsModels.NumberOfPlayingFriends` | rwrs/models.py:550-552 | never more than the friends |
| `RwrsModels.PlayingFriendsCount` | rwrs/models.py:550-552 | the count is the length of the playing list |
| `RwrsModels.NewFriends` | rwrs/models.py:564-586 | at most one friend per requested username, each upper-cased |
| `RwrsModels.NewFriendsFrom` | rwrs/models.py:573-575 | every added friend is the upper-cased form of a requested username not stored as written |
| `RwrsModels.NewFriendsDuplicate` | rwrs/models.py:566-575 | as written, `foo` is added beside a stored `FOO`, and `Foo` and `foo` are both added as `FOO` |
| `RwrsModels.NewFriendsChecked` | rwrs/models.py:564-586 | corrected: never more friends than usernames, and none of them already stored |
| `RwrsModels.NewFriendsCheckedDistinct` | rwrs/models.py:564-586 | corrected: comparing upper-cased usernames with the stored ones and with each other, a list without repeats stays without repeats |
| `RwrsModels.RemoveFirst` | rwrs/models.py:599-608 | removes one occurrence when there is one, and changes nothing otherwise |
| `RwrsModels.User.constructor` | rwrs/models.py:380-400 | a new user has no friends |
| `RwrsModels.User.FriendsOrdered` | rwrs/models.py:535-539 | the friends, each as often as stored, in username order |
| `RwrsModels.User.HasFriend` | rwrs/models.py:588-590 | true exactly when the username is among the friends |
| `RwrsModels.User.DividedByStatus` | rwrs/models.py:542-548 | the playing and the idle friends, each list in username order |
| `RwrsModels.User.AddFriends` | rwrs/models.py:564-586 | the corrected `add_friends` appends and returns the upper-cased usernames not stored or created before, and a friends list without repeats keeps none |
| `RwrsModels.User.RemoveFriend` | rwrs/models.py:592-608 | true exactly when the friend was stored; one stored copy is removed |
| `RwrsModels.NewFriendsAppend` | rwrs/models.py:573-575 | asking for two username lists at once adds what asking for each adds |
| `RwrsModels.AccountTypeOf` | rwrs/models.py:618-621 | `INVASION` and `PACIFIC`, after upper-casing, are the only account types; anything else raises `ValueError` |
| `RwrsModels.Matching` | rwrs/models.py:745-748 | exactly the accounts of the type whose username is requested |
| `RwrsModels.Usernames` | rwrs/models.py:751 | the usernames of the accounts, in order |
| `RwrsModels.Created` | rwrs/models.py:753-759 | every created account has the type and a requested username |
| `RwrsModels.GetManyByTypeAndUsernames` | rwrs/models.py:738-761 | raises exactly for an unknown type; otherwise the matching accounts, then, when asked, a new account for every requested username not found |
| `RwrsModels.CreatedCovers` | rwrs/models.py:753-759 | a requested username that was not found gets an account |
| `RwrsModels.AllRequestedHaveAccounts` | rwrs/models.py:738-761 | when asked to create, every requested username ends up with an account of the type |
| `Models.Encode` | models.py:150-170 | the legacy setter raises exactly for `None` and lists; a `str` is stored under `STRING`; `bool`s are caught by the `int` test, so nothing is tagged `BOOL` |
| `Models.IntegerRoundTrip` | models.py:134-170 | every `int`, zero included, is stored as its decimal text and read back |
| `Models.StringRoundTrip` | models.py:134-170 | every `str` is stored and read back as itself |
| `Models.BoolAsWritten` | models.py:153-164 | `True` and `False` are stored as `INTEGER` `"True"` and `"False"`, whose reading raises `ValueError` |
| `Models.EncodeChecked` | models.py:150-170 | corrected: the `bool` test first, so a `bool` is tagged `BOOL` |
| `Models.BoolCheckedRoundTrip` | models.py:134-170 | with `bool` tested first, a boolean is tagged BOOL, stored as `"1"` or `"0"` and read back as itself |
| `Models.BoolCheckedRead` | models.py:134-170 | the stored text `"1"` or `"0"` of a `BOOL` variable reads back as true or false |
| `Models.CheckedRoundTrip` | models.py:134-170 | with the corrected setter every accepted value is read back as itself |
| `Models.Variable.constructor` | models.py:125-132 | a new variable holds nothing, as a `STRING` |
| `Models.Variable.Value` | models.py:134-148 | the getter reads the stored text under its type tag |
| `Models.Variable.SetValue` | models.py:150-170 | the corrected setter raises and keeps the old type and value exactly for `None` and lists; otherwise it stores what `EncodeChecked` gives, and the getter then returns the value set |
| `Models.FirstBySteamId` | models.py:310 | the first user with the Steam ID, or none when no user has it |
| `Models.GetBySteamId` | models.py:307-316 | a user with that Steam ID, or `None` exactly when there is none and creation was not asked for; a new user is only made when asked |
| `Models.CreatesOnlyWhenMissing` | models.py:307-316 | an existing user is returned rather than created |
| `Models.TotalPrice` | models.py:358-360 | the total is zero exactly when the quantity or the unit price is, and never negative for non-negative ones |
| `Models.IsFree` | models.py:370-372 | an ad is free exactly when its quantity or its unit price is zero |
| `Models.TypeForUrl` | models.py:374-381 | `offers`, `requests` or `unknown`, each for exactly one ad type |
| `Models.TypeForUrlDistinct` | models.py:374-381 | two ads share a URL type exactly when they share an ad type |
| `Models.FloorTo` | models.py:517 | `floor` gives the last multiple of the unit at or before the instant |
| `Models.ClaimDeadline` | models.py:515-518 | the deadline is a whole second, the delay after the start of the current second |
| `Models.ClaimWindow` | models.py:515-518 | a positive delay gives a deadline after now and at most the delay away |
| `Models.RwrAccount.constructor` | models.py:431-449 | a new account is neither claimed nor being claimed |
| `Models.RwrAccount.InitClaim` | models.py:515-517 | the claim is started by the user until the deadline; the owner is unchanged |
| `Models.RwrAccount.ResetClaim` | models.py:520-523 | the pending claim is cleared; the owner is unchanged |
| `Models.RwrAccount.Claim` | models.py:525-530 | the user owns the account from the current minute and no claim is pending |
| `Models.RwrAccount.HasClaimExpired` | models.py:532-539 | comparing with no deadline raises `TypeError`; otherwise true exactly from the deadline on, clearing the pending claim only then |
| `RwrsDiscordUtils.PrepareUsername` | rwrs/discord/utils.py:7-14 | the username upper-cased, with one leading escaped `\-` turned into `-` and nothing else changed |
| `RwrsDiscordUtils.PrepareUsernameIdempotent` | rwrs/discord/utils.py:7-14 | preparing a prepared username changes nothing |
| `RwrsDiscordUtils.CompareMark` | rwrs/discord/utils.py:54-60 | `▲` exactly when the source is greater, `▼` exactly when it is smaller, `=` exactly when they are equal |
| `RwrsDiscordUtils.CompareValuesMirror` | rwrs/discord/utils.py:49-62 | the cell is the source's mark, two spaces, and the mirrored mark of the target |
| `RwrsDiscordUtils.Permissions` | rwrs/discord/utils.py:65-66 | never more permissions than the table holds; a permission is listed exactly when some table entry with a requested name holds it |
| `RwrsDiscordUtils.AdminPermissions` | rwrs/discord/utils.py:69-72 | exactly the permissions the table lists under `myself` |
| `RwrsDiscordUtils.HasPermissions` | rwrs/discord/utils.py:75-80 | true exactly when some permission is enabled and names one of the member's roles (type 1) or the member (type 2) |
| `RwrsDiscordUtils.CheckMaintenance` | rwrs/discord/utils.py:83-94 | refuses with the maintenance notice exactly when there is an author, the bot is under maintenance and no admin permission grants the author |
| `DiscordUtils.EventManagerPermissions` | discord/utils.py:79-82 | the admin permissions, followed by those named `jackmayol` |
| `DiscordUtils.AdminIsEventManager` | discord/utils.py:73-82 | whoever an admin permission grants is granted by an event manager permission |
| `DiscordUtils.EventManagerEntries` | discord/utils.py:69-82 | an event manager permission is exactly a table entry named `myself` or `jackmayol` |
| `RwrsApi.CheckUnderMaintenance` | rwrs/api/__init__.py:14-22 | aborts with 503 and `Maintenance in progress` exactly under maintenance |
| `RwrsApi.CurrentPat` | rwrs/api/__init__.py:25-37 | `''` without a header; a non-empty PAT is always the stripped rest of a `Token ` header |
| `RwrsApi.CurrentPatOfToken` | rwrs/api/__init__.py:32-37 | `Token <t>` gives `t` stripped |
| `RwrsApi.CurrentPatOtherScheme` | rwrs/api/__init__.py:32-35 | a header not opening with `Token ` gives `''` |
| `RwrsApi.RateLimiterKey` | rwrs/api/__init__.py:40-44 | the key opens with the remote address and `|` |
| `RwrsApi.RateLimiterKeySplits` | rwrs/api/__init__.py:40-44 | splitting the key at its first `|` gives back the address and the PAT when the address holds no `|` |
| `RwrsApi.SplitFirstAt` | rwrs/api/__init__.py:32 | `split(sep, maxsplit=1)` undoes joining with `sep` when the first part lacks it |
| `RwrsApi.FirstWithPat` | rwrs/models.py:525-528 | the first user holding the PAT, or none exactly when nobody does |
| `RwrsApi.VerifyToken` | rwrs/api/__init__.py:56-74 | no user for an empty token, one that is not a UUID, or one nobody holds; otherwise the holder, its last call stamped with the current second, and no other user changed |
| `RwrsSteamHelpers.End` | rwrs/steam_helpers.py:6 | where `$` matches: the end of the text, or before its final newline |
| `RwrsSteamHelpers.SearchFrom` | rwrs/steam_helpers.py:11 | `search` finds the leftmost position where the identity pattern matches, or none |
| `RwrsSteamHelpers.ParseSteamId` | rwrs/steam_helpers.py:9-16 | `None` exactly when the pattern matches nowhere; otherwise a non-empty digit run that the pattern matched |
| `RwrsSteamHelpers.MatchUnique` | rwrs/steam_helpers.py:6 | the pattern matches at one position at most |
| `RwrsSteamHelpers.ParseIdentityUrl` | rwrs/steam_helpers.py:6-16 | a URL ending with the identity prefix and a Steam ID, newline or not, gives that ID |
| `RwrsSteamHelpers.UrlMatches` | rwrs/steam_helpers.py:6 | such a URL matches right where the prefix starts, with the ID as group 1 |
| `RwrsSteamHelpers.CurrentPlayersCount` | rwrs/steam_helpers.py:20-26 | `None` exactly when `response` or `player_count` is missing, otherwise the count |
| `RwrsSteamHelpers.UserSummary` | rwrs/steam_helpers.py:29-35 | `None` exactly when a key is missing or the list is empty, otherwise the first summary |
| `ApiValidators.Body` | api/validators.py:6 | `$` lets one final newline follow the match |
| `ApiValidators.MatchLocation` | api/validators.py:6-10 | `any`, then a bare two-letter code, then `country:` or `continent:` with a two-letter code, each exactly on the body those forms describe |
| `ApiValidators.MatchTyped` | api/validators.py:6 | every typed form, with or without a final newline, matches as that form |
| `ApiValidators.CheckLocation` | api/validators.py:9-24 | an accepted value is returned unchanged; no match raises `Invalid format`; `any` is always accepted |
| `ApiValidators.SingleCode` | api/validators.py:17-18 | a bare code is accepted exactly when it is a country once upper-cased, and is otherwise an `Invalid country code` |
| `ApiValidators.TypedCode` | api/validators.py:19-22 | a typed code is accepted exactly when it is known for its type, and otherwise raises that type's message |
| `ApiValidators.TrailingNewlineKept` | api/validators.py:6-24 | `any\n` is accepted and returned with its newline; `any\n\n` is an invalid format |
| `Commands.CheckMaintenance` | commands.py:7-17 | the command is skipped exactly when the `maintenance` file exists, and otherwise its result is returned |
| `Commands.CountServers` | commands.py:76-94 | one count row per server, in order, and the online players, online servers and active servers totals the servers list counters give |
| `Commands.KeysDiffer` | commands.py:111-112 | a `_count` name is never a `_date` name |
| `Commands.KeysInjective` | commands.py:111-112 | different peaks have different `_count` names and different `_date` names |
| `Commands.KeysApart` | commands.py:111-112 | the four names of two different peaks are pairwise different |
| `Commands.SavePeaks` | commands.py:105-118 | the loop leaves the updates the peak-by-peak definition gives |
| `Commands.PeakUpdatesKeys` | commands.py:108-118 | only the `_count` and `_date` names of the referenced peaks are updated |
| `Commands.PeakUpdatesOthers` | commands.py:108-118 | a peak that is not referenced is not updated |
| `Commands.PeakUpdatesAt` | commands.py:108-118 | a peak is updated exactly when its current value is at least the stored one (0 when not stored), with that value and the minute the loop reached it |
| `Commands.PeakNeverDecreases` | commands.py:108-120 | after the update a stored peak is the larger of the stored and the current value, so it never decreases |
| `Commands.PeakRefs` | commands.py:98-103 | the four peaks referenced have distinct names |
| `Commands.GetPlayersCountAsWritten` | commands.py:44-124 | as written, a missing Steam count raises `TypeError` at `count > 0`; otherwise the Steam row is saved only when positive and every peak is updated from the counts |
| `Commands.GetPlayersCount` | commands.py:44-124 | corrected: the Steam row is saved exactly when there is a positive count; server rows and server peaks are always recorded, the total peak only with a Steam count |
| `Commands.MissingSteamCountKeepsTotal` | commands.py:98-118 | without a Steam count the corrected command never touches the total players peak |
| `Commands.Promotion` | commands.py:310-313 | a promotion exactly when the rank changes, to the current rank |
| `Commands.PromotionRaisesRank` | commands.py:310-313 | with ranks growing with XP, a promotion after an XP gain is to a higher rank |
| `Commands.Built` | commands.py:299-313 | the built row keeps the account, XP and hash, and carries a promotion only when there is a previous row and the rank changed |
| `Commands.SelectStats` | commands.py:303-317 | the loop queues what the player-by-player definition gives |
| `Commands.SelectedRows` | commands.py:303-317 | a row is queued exactly when it is some player's built row that passes the test: no previous row, a truthy promotion, or a changed hash; never more rows than players |
| `Commands.NewAccountQueued` | commands.py:316-317 | the first row of an account is always saved |
| `Commands.UnchangedNotQueued` | commands.py:316-317 | a row with the latest row's hash and rank is not saved again |
| `Commands.PromotionQueued` | commands.py:313-317 | a promotion to a rank with a non-zero id is always saved |
| `Commands.Recomputed` | commands.py:371-378 | the first row gets no promotion; each later row gets the promotion from the row before it |
| `Commands.ComputePromotions` | commands.py:361-381 | every row of an account ordered by creation is left with the recomputed promotion and nothing else changed |

## Left out

- Network I/O: `_call` and `get_servers` in `rwr/scraper.py`, the requests sessions, the Steam Web API calls, the ajax call in `importFriends` and the Discord HTTP call in `rwrs/event.py` `set_from_discord` are plumbing; their answers are inputs (sequences of records, maps, a response flag).
- lxml traversal of the scraped HTML/XML and the SVG, and the geoip lookups: node texts, attributes and locations are given values.
- `_set_servers_location`, `get_all_servers_maps`, `get_all_players_with_servers_details` and `search_player_by_username` in `rwr/scraper.py` only combine the cached calls and the lookups modelled elsewhere.
- `Player.load` in `rwr/player.py` and `Server.set_links` and `ServerMap.set_preview_image_urls` in `rwr/server.py` read XML or build URLs with `url_for`; the field derivations of `Server.load` are modelled, the link building is not.
- Floating point: `get_xp_percent_completion_to_next_rank`, `kd_ratio`, map rect bounds and spawn coordinates in `rwr/map.py` (including the `TypeError` of `float()` on a missing `x` or `y`), FLOAT variables.
- ARROW and JSON variables: the getter branches for them parse through libraries; only STRING, INTEGER and BOOL are modelled.
- `humanize_seconds` computes `int(seconds / 86400)` with a float division; the model uses integer division, which agrees below 2^53 seconds.
- Regular expressions are read over ASCII: `\d` and `\s` in the Python patterns match more Unicode characters than the model's digits and whitespace.
- JavaScript's default sort compares UTF-16 code units; the model compares code points, which differs only for characters outside the Basic Multilingual Plane.
- friends.js `initOnMyFriends`, `initOnPlayerDetails` and `initOnPlayersComparison`, and app.js `initOnServerDetails` and `initOnPlayerStats`: DOM wiring around the store operations that are modelled.
- Several tabs writing the `friends` key at once: localStorage is one value the model owns, without concurrent writers.
- The shared `MAPS` dictionaries: `get_map` and `get_maps` tag the stored dictionary in place; the model returns tagged copies, so later readers of the table do not see the added `id` and `server_type`.
- `get_unlocks` marks the unlockables of the shared table in place; the model builds new tagged lists.
- `next_rank` in `rwr.py` updates the shared `RANKS` entry with its id; the model returns a tagged copy.
- `MapObjectsParser.data` is a class attribute shared by every parser; the model gives each parser its own, starting empty.
- MD5 in `RwrAccountStat.compute_hash`, arrow's `parse_date` in both `discord/utils.py` and `rwrs/discord/utils.py`, `uuid.UUID`, the iso3166 country table and `get_rank_from_xp` are parameters of the functions that use them.
- The reqparse argument declarations of `api/validators.py` besides `location` are declarations for the framework, not logic.
- `slugify` and the `url_for` links of the user and account models are not modelled.
- SQL ordering and collation: queries are sequences in a given order, and the database's case-insensitive comparison of usernames is not modelled.
- The account creation and the session commits of `save_players_stats` in `commands.py` are not modelled; its stat-row and promotion decisions are.
- `delete_rwr_accounts_pending_deletion` in `commands.py` only deletes rows selected by a query.
- Helpers.HumanizeInteger has no contract of its own; what it promises, its digits with spaces removed, is the lemma `Helpers.HumanizeIntegerDigits`.
- RwrsDiscordUtils.CompareValues compares integer values only; the source also compares floats, such as ratios.
- FriendsJs.PlayersTablePage.ClickAddOnPlayersList and the other friends.js page handlers are modelled as written, with values as `.data()` hands them out; the by-name operations beside them are the corrected store calls.
- Browser.DataValueNumeric: jQuery's `.data()` also turns `"true"`, `"false"` and `"null"` into a boolean and null, decimal texts such as `"1.5"` into fractional numbers, and texts in braces or brackets into parsed JSON. It also converts integer texts above 2^53 that a double prints back digit for digit, such as `"9007199254740994"`. The model keeps all of these as strings, because the only values it follows are usernames, and a username becomes either a string or an integer.
- Browser.DataValue: has the same conversions left out as `Browser.DataValueNumeric`; integer texts above 2^53 that a double cannot hold exactly, such as `"12345678901234567890"`, stay strings, as in jQuery.
- AppJs.ReadFriends, FriendsJs.ReadFriends and FriendsImportJs.ReadFriends: the `friends` entry (`Browser.Stored`) is either an array of strings and integers, `null`, an empty text, or text `JSON.parse` refuses. Other JSON texts are not modelled: `0`, `false`, `""` and the other falsy values, which `getFriends` in static/js/friends.js:263-265 and app.js:273-275 turn into `[]`; strings, objects and numbers; and arrays holding `null`, booleans, fractions or nested values. The scripts never store any of these.
- AppJs.FriendsApp.SubmitAddFriendForm: upper-cases ASCII letters only, whereas JavaScript's `toUpperCase` maps every Unicode letter (`"é"` becomes `"É"` there and stays `"é"` here).
- RwrScraper.ServerByName: lower-cases ASCII letters only, whereas Python's `str.lower` is full Unicode.
- RwrScraper.CurrentServerOfPlayer: lower-cases ASCII letters only, whereas Python's `str.lower` is full Unicode, so two names that differ only in a non-ASCII letter's case match there and not here.
- RwrScraper.LowerAll: lower-cases ASCII letters only, whereas Python's `str.lower` is full Unicode.
- RwrsModels.NewFriends: upper-cases ASCII letters only, whereas Python's `str.upper` is full Unicode.
- RwrsModels.User.AddFriends: upper-cases ASCII letters only, whereas Python's `str.upper` is full Unicode.
- RwrsModels.AccountTypeOf: upper-cases ASCII letters only. Python's `str.upper` is full Unicode, so `"ınvasıon"` (dotless i) upper-cases to `"INVASION"` and is accepted there, while the model refuses it with `ValueError`.
- RwrsDiscordUtils.PrepareUsername: upper-cases ASCII letters only, whereas Python's `str.upper` is full Unicode.
- Decimal.ParseInt, RwrServer.IntOf, RwrMap.BaseOf and PyValues.IntOf: read ASCII digits only. Python's `int()` also accepts the other Unicode decimal digits, such as `"٣"` for 3. The model refuses such text with `ValueError` where the source reads a number: in `int(node.text)` of rwr/server.py:34, in `faction_index` of rwr/map.py:95-98, and in the INTEGER getters of rwrs/models.py:138-155 and models.py:134-148 (`RwrsModels.Variable.Value`, `Models.Variable.Value`).
- RwrServer.Load: its integer fields are read by `RwrServer.IntOf`, so they refuse non-ASCII digits as the line above says. The `name`, `address`, `map_id`, `version`, `dedicated` and `realm` elements are read as texts. An empty one, whose `.text` is `None`, is not modelled. In the source, `strip()` on an empty `name` and `replace()` on an empty `map_id` raise `AttributeError`. An empty `address` or `version` stores `None` and is formatted as `"None"` in the address and links; an empty `dedicated` gives `False`; an empty `realm` is unranked.

## Findings

| source | as written | input that shows it | evidently intended | confidence | as-written member | corrected member |
|---|---|---|---|---|---|---|
| rwrs/models.py:157-180 | the `int` test comes before the `bool` test, and `bool` is a subclass of `int`, so `True` is tagged INTEGER and stored as `"True"` | `value = True`: reading it back runs `int("True")` and raises `ValueError` | tagged BOOL, stored as `"1"`, read back as `True` | not executed | `RwrsModels.TrueAsWritten` | `RwrsModels.CheckedRoundTrip` |
| models.py:150-170 | the same order of tests, so both booleans are tagged INTEGER and stored as `"True"` or `"False"` | `value = False`: reading it back raises `ValueError` | each boolean read back as itself | not executed | `Models.BoolAsWritten` | `Models.CheckedRoundTrip` |
| rwrs/models.py:566-586 | `add_friends` checks usernames against the stored ones and creates each one upper-cased, without checking against the friends it has just created | an empty friend list and `["Foo", "foo"]`: two friends `"FOO"` are added, and the commit then raises `IntegrityError` on the unique index `user_id_username_idx` of rwrs/models.py:300 | at most one friend per upper-cased username | not executed | `RwrsModels.NewFriendsDuplicate` | `RwrsModels.NewFriendsCheckedDistinct` |
| commands.py:64-70 | the Steam count is compared with `> 0` even when the answer lacks it | a Steam answer without `player_count`: `None > 0` raises `TypeError` and no count is saved | a missing count is skipped like a zero one | not executed | `Commands.GetPlayersCountAsWritten` | `Commands.MissingSteamCountKeepsTotal` |
| static/js/friends.js:283-311 | `addFriend` and `removeFriend` compare with `===` the value `.data()` gives, which is a number for a numeric username, against the stored names, which `getFriends` turns into strings | adding username `123` twice: the second add also succeeds, `"123"` is then stored twice, and removing it reports it absent | the username compared as text | not executed | `FriendsJs.NumericUsernameDuplicated` | `FriendsJs.ByNameKeepsNoDup` |
| rwr/map.py:150-161 | `vehicle_type` is set only when the description has a `key` or a `tag` | a vehicle rect naming neither takes the previous rect's type, or raises `UnboundLocalError` when it comes first | such a rect has no vehicle type | not executed | `RwrMap.StaleVehicleType` | `RwrMap.MapObjectsParser.ParseVehicles` |
| rwr/server.py:109-114 | `map.name_display` is set only for a map in the table, and the summary reads it | a server on `/vanilla/maps/map99`, a map not in the table, raises `AttributeError` | the map id displayed | not executed | `RwrServer.UnknownMapRaises` | `RwrServer.LoadMapDisplay` |
