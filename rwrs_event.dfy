/**
 * `rwrs/event.py`: the upcoming community event, stored in the `event`
 * variable. Instants are integer minutes in the event's time zone: both
 * the event's start and the current time are floored to the minute.
 * The Discord request of `set_from_discord` is not part of this model:
 * only its guard is.
 */
module RwrsEvent {
  import opened Wrappers
  import Text
  import opened RwrServer
  import RwrScraper

  /** What `set` stores: `start` is the parsed `datetime`. */
  datatype Event = Event(name: string, start: int, serversAddress: seq<string>, manual: bool)

  /** What `get` returns: the stored event with its window flags and the looked-up servers. */
  datatype ShownEvent = ShownEvent(event: Event, isOngoing: bool, displayServerPlayersCount: bool, servers: seq<Option<Server>>)

  datatype EventError =
    | InvalidDatetime   // `arrow.get` rejects the datetime text
    | AlreadyManual     // "Aborting: an event has already been manually set"

  /** An event is no longer shown five hours after its start. */
  const ShownFor: int := 5 * 60
  /** Server player counts are shown from fifteen minutes before the start. */
  const CountsShownBefore: int := 15

  /** `servers_address.split(',') if servers_address else []`. */
  function Addresses(serversAddress: string): (r: seq<string>)
    ensures serversAddress == "" ==> r == []
    ensures serversAddress != "" ==> Text.Join(r, ",") == serversAddress
    ensures forall i :: 0 <= i < |r| ==> ',' !in r[i]
  {
    if serversAddress == "" then []
    else
      Text.JoinSplit(serversAddress, ',');
      Text.Split(serversAddress, ',')
  }

  /** `get_server_by_ip_and_port(address)`: the first server whose `ip:port` is the address. */
  function ServerAt(servers: seq<Server>, address: string): (r: Option<Server>)
    ensures r.Some? ==> exists i :: (0 <= i < |servers| && servers[i] == r.value
      && RwrScraper.IpAndPortMatch(servers[i], [RwrScraper.Text(address)])
      && forall j :: 0 <= j < i ==> !RwrScraper.IpAndPortMatch(servers[j], [RwrScraper.Text(address)]))
    ensures r.None? <==> forall i :: 0 <= i < |servers| ==> !RwrScraper.IpAndPortMatch(servers[i], [RwrScraper.Text(address)])
  {
    if servers == [] then None
    else if servers[0].ipAndPort == address then Some(servers[0])
    else
      var rest := ServerAt(servers[1..], address);
      assert forall i :: 1 <= i < |servers| ==> servers[i] == servers[1..][i - 1];
      rest
  }

  /** One lookup per stored address, in order. */
  function Lookups(servers: seq<Server>, addresses: seq<string>): (r: seq<Option<Server>>)
    ensures |r| == |addresses| && forall i :: 0 <= i < |r| ==> r[i] == ServerAt(servers, addresses[i])
  {
    if addresses == [] then [] else [ServerAt(servers, addresses[0])] + Lookups(servers, addresses[1..])
  }

  /** The window rules of `get`, on the stored event alone. */
  function Shown(event: Event, now: int, withServers: bool, servers: seq<Server>): (r: Option<ShownEvent>)
    ensures r.None? <==> now >= event.start + ShownFor
    ensures r.Some? ==> r.value.event == event
    ensures r.Some? ==> (r.value.isOngoing <==> event.start <= now)
    ensures r.Some? ==> (r.value.displayServerPlayersCount <==> event.start - CountsShownBefore <= now)
    ensures r.Some? ==> r.value.servers == (if withServers then Lookups(servers, event.serversAddress) else [])
  {
    if now >= event.start + ShownFor then None
    else Some(ShownEvent(event, now >= event.start, now >= event.start - CountsShownBefore,
      if withServers then Lookups(servers, event.serversAddress) else []))
  }

  /** A shown event is ongoing during its first five hours, and shows counts a quarter of an hour before that. */
  lemma Windows(event: Event, now: int, withServers: bool, servers: seq<Server>)
    requires Shown(event, now, withServers, servers).Some?
    ensures var s := Shown(event, now, withServers, servers).value;
      (s.isOngoing ==> s.displayServerPlayersCount)
      && (s.isOngoing <==> event.start <= now < event.start + ShownFor)
      && (s.displayServerPlayersCount && !s.isOngoing <==> event.start - CountsShownBefore <= now < event.start)
  {
  }

  /** The `event` variable. */
  class EventStore {
    var event: Option<Event>

    constructor ()
      ensures event.None?
    {
      event := None;
    }

    /** `remove`: `True` exactly when an event was set; afterwards none is. */
    method Remove() returns (removed: bool)
      modifies this
      ensures removed <==> old(event).Some?
      ensures event.None?
    {
      if event.Some? {
        event := None;
        return true;
      }
      return false;
    }

    /** `set`: `start` is `None` when the datetime text does not parse, and then nothing is stored. */
    method Set(name: string, start: Option<int>, serversAddress: string, manual: bool) returns (r: Result<(), EventError>)
      modifies this
      ensures start.None? ==> r == Failure(InvalidDatetime) && event == old(event)
      ensures start.Some? ==> r.Success? && event == Some(Event(name, start.value, Addresses(serversAddress), manual))
    {
      if start.None? {
        return Failure(InvalidDatetime);
      }
      event := Some(Event(name, start.value, Addresses(serversAddress), manual));
      return Success(());
    }

    /** The guard of `set_from_discord`: a manually set event is never replaced. */
    method SetFromDiscordGuard() returns (r: Result<(), EventError>)
      ensures r.Failure? <==> event.Some? && event.value.manual
      ensures r.Failure? ==> r.error == AlreadyManual
    {
      if event.Some? && event.value.manual {
        return Failure(AlreadyManual);
      }
      return Success(());
    }

    /** `get`: nothing without an event, nothing once it is over. */
    function Get(now: int, withServers: bool, servers: seq<Server>): (r: Option<ShownEvent>)
      reads this
      ensures event.None? ==> r.None?
      ensures event.Some? ==> r == Shown(event.value, now, withServers, servers)
    {
      if event.None? then None else Shown(event.value, now, withServers, servers)
    }
  }
}
