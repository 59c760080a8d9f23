/**
 * Which devices the account has and which of them are online, crates/asli-app/src/devices.rs.
 *
 * Departures are never reported as such. The relay's count of connections falls, and the devices that
 * stayed are heard from once more. Ids are fixed-length hex strings in the source and are ordered alike here.
 */
module Devices {
  import opened Options

  type Id = nat

  /** `boxPub` is empty until a signed card pinned a key. */
  datatype Device = Device(signPub: string, boxPub: string, name: string, os: string, lastSeenMs: nat)

  datatype Book = Book(devices: map<Id, Device>, connected: bool, peers: nat, departureMs: nat)

  const MAX_DEVICES: nat := 64

  // ------------------------------------------------------------------ eviction

  /** The order in which entries make way: by the time last seen, then by id. */
  predicate Before(devices: map<Id, Device>, a: Id, b: Id)
    requires a in devices && b in devices
  {
    devices[a].lastSeenMs < devices[b].lastSeenMs
    || (devices[a].lastSeenMs == devices[b].lastSeenMs && a < b)
  }

  ghost predicate IsOldest(devices: map<Id, Device>, id: Id) {
    id in devices && forall other | other in devices && other != id :: Before(devices, id, other)
  }

  lemma {:induction false} SomeOldest(devices: map<Id, Device>, keys: set<Id>) returns (id: Id)
    requires keys != {} && keys <= devices.Keys
    ensures id in keys && forall other | other in keys && other != id :: Before(devices, id, other)
    decreases |keys|
  {
    var k :| k in keys;
    id := k;
    if keys != {k} {
      var best := SomeOldest(devices, keys - {k});
      id := if Before(devices, k, best) then k else best;
      forall other | other in keys && other != id
        ensures Before(devices, id, other)
      {
        assert other == k || other in keys - {k};
      }
    } else {
      assert forall other | other in keys :: other == k;
    }
  }

  ghost function Oldest(devices: map<Id, Device>): (id: Id)
    requires devices != map[]
    ensures IsOldest(devices, id)
  {
    assert exists id :: IsOldest(devices, id) by {
      assert devices.Keys != {};
      var id := SomeOldest(devices, devices.Keys);
      assert IsOldest(devices, id);
    }
    var id :| IsOldest(devices, id);
    id
  }

  ghost function Evicted(devices: map<Id, Device>): map<Id, Device>
    decreases |devices|
  {
    if |devices| <= MAX_DEVICES then devices
    else
      ShrinksByOne(devices, Oldest(devices));
      Evicted(devices - {Oldest(devices)})
  }

  lemma ShrinksByOne(devices: map<Id, Device>, id: Id)
    requires id in devices
    ensures |devices - {id}| == |devices| - 1
  {
    assert (devices - {id}).Keys == devices.Keys - {id};
  }

  // ------------------------------------------------------------------ the operations

  ghost function Heard(b: Book, id: Id, name: string, os: string, now: nat): Book {
    var keys := if id in b.devices then (b.devices[id].signPub, b.devices[id].boxPub) else ("", "");
    b.(devices := Evicted(b.devices[id := Device(keys.0, keys.1, name, os, now)]))
  }

  /** Whether a signed card from `id` shows that `other` is that machine before it had a key. */
  predicate Superseded(other: Id, d: Device, id: Id, name: string, os: string) {
    other != id && d.boxPub == "" && d.name == name && d.os == os
  }

  function WithoutSuperseded(devices: map<Id, Device>, id: Id, name: string, os: string): map<Id, Device> {
    map other | other in devices && !Superseded(other, devices[other], id, name, os) :: devices[other]
  }

  ghost function HeardCard(b: Book, id: Id, card: Device): Book {
    b.(devices := Evicted(WithoutSuperseded(b.devices, id, card.name, card.os)[id := card]))
  }

  function Max(a: nat, b: nat): nat {
    if a < b then b else a
  }

  /** Everyone heard from since the last departure was seen until `seen`. */
  function SeenUntil(devices: map<Id, Device>, since: nat, seen: nat): map<Id, Device> {
    map id | id in devices ::
      if devices[id].lastSeenMs >= since
      then devices[id].(lastSeenMs := Max(devices[id].lastSeenMs, seen))
      else devices[id]
  }

  /** Everyone heard from since the last departure was last seen at `now`, whatever stood there. */
  function SeenAt(devices: map<Id, Device>, since: nat, now: nat): map<Id, Device> {
    map id | id in devices ::
      if devices[id].lastSeenMs >= since then devices[id].(lastSeenMs := now) else devices[id]
  }

  function SetConnected(b: Book, connected: bool, peers: nat, now: nat): Book {
    Book(if b.connected && !connected then SeenAt(b.devices, b.departureMs, now) else b.devices,
         connected, peers, if connected then now else b.departureMs)
  }

  function Presence(b: Book, peers: nat, now: nat): Book {
    if peers < b.peers then
      Book(SeenUntil(b.devices, b.departureMs, if now == 0 then 0 else now - 1), b.connected, peers, now)
    else b.(peers := peers)
  }

  predicate Online(b: Book, id: Id) {
    id in b.devices && b.connected && b.devices[id].lastSeenMs >= b.departureMs
  }

  class Registry {
    var devices: map<Id, Device>
    var connected: bool
    var peers: nat
    var departureMs: nat

    function State(): Book
      reads this
    {
      Book(devices, connected, peers, departureMs)
    }

    constructor (stored: map<Id, Device>)
      ensures State() == Book(stored, false, 0, 0)
    {
      devices, connected, peers, departureMs := stored, false, 0, 0;
    }

    /** Removes oldest entries one by one until `MAX_DEVICES` fit. */
    method Evict()
      modifies this`devices
      ensures devices == Evicted(old(devices))
    {
      while |devices| > MAX_DEVICES
        invariant Evicted(devices) == Evicted(old(devices))
        decreases |devices|
      {
        var oldest := FindOldest();
        ShrinksByOne(devices, oldest);
        devices := devices - {oldest};
      }
    }

    /** The least by when it was heard, the first by id of equals. */
    method FindOldest() returns (oldest: Id)
      requires devices != map[]
      ensures oldest == Oldest(devices)
    {
      oldest :| oldest in devices;
      var rest := devices.Keys - {oldest};
      while rest != {}
        invariant rest <= devices.Keys && oldest in devices && oldest !in rest
        invariant forall other | other in devices && other !in rest && other != oldest ::
                    Before(devices, oldest, other)
      {
        var id :| id in rest;
        if Before(devices, id, oldest) {
          oldest := id;
        }
        rest := rest - {id};
      }
      assert IsOldest(devices, oldest);
    }

    /** Puts the announced name, system and time in place, over whatever keys the entry has. */
    method HearAnnouncement(id: Id, name: string, os: string, now: nat)
      modifies this
      ensures State() == Heard(old(State()), id, name, os, now)
    {
      var signPub, boxPub := "", "";
      if id in devices {
        signPub, boxPub := devices[id].signPub, devices[id].boxPub;
      }
      devices := devices[id := Device(signPub, boxPub, name, os, now)];
      Evict();
    }

    /** Removes every entry this card supersedes. */
    method DropSuperseded(id: Id, name: string, os: string)
      modifies this`devices
      ensures devices == WithoutSuperseded(old(devices), id, name, os)
    {
      var before, rest := devices, devices.Keys;
      while rest != {}
        invariant rest <= before.Keys
        invariant forall other ::
                    other in devices <==>
                    other in before && (other in rest || !Superseded(other, before[other], id, name, os))
        invariant forall other | other in devices :: devices[other] == before[other]
      {
        var other :| other in rest;
        if Superseded(other, before[other], id, name, os) {
          devices := devices - {other};
        }
        rest := rest - {other};
      }
    }

    /** Removes what the card supersedes, puts the card in place and makes room. */
    method HearCard(id: Id, card: Device)
      modifies this
      ensures State() == HeardCard(old(State()), id, card)
    {
      DropSuperseded(id, card.name, card.os);
      devices := devices[id := card];
      Evict();
    }

    /** A disconnect stamps everyone listed as online; a connect starts a new count of who is there. */
    method SetConnection(nowConnected: bool, nowPeers: nat, now: nat)
      modifies this
      ensures State() == SetConnected(old(State()), nowConnected, nowPeers, now)
    {
      if connected && !nowConnected {
        var before, rest, departure := devices, devices.Keys, departureMs;
        while rest != {}
          invariant rest <= before.Keys == devices.Keys
          invariant forall id | id in devices ::
                      devices[id] == if id in rest then before[id] else SeenAt(before, departure, now)[id]
          invariant departureMs == departure
        {
          var id :| id in rest;
          if devices[id].lastSeenMs >= departure {
            devices := devices[id := devices[id].(lastSeenMs := now)];
          }
          rest := rest - {id};
        }
        assert devices == SeenAt(before, departure, now);
      }
      connected := nowConnected;
      peers := nowPeers;
      if nowConnected {
        departureMs := now;
      }
    }

    /** A fall lifts everyone listed as online to just before it and starts a new count; the rest only notes the number. */
    method HearPresence(nowPeers: nat, now: nat)
      modifies this
      ensures State() == Presence(old(State()), nowPeers, now)
    {
      if nowPeers < peers {
        var before, rest, since := devices, devices.Keys, departureMs;
        var seen := if now == 0 then 0 else now - 1;
        while rest != {}
          invariant rest <= before.Keys == devices.Keys
          invariant forall id | id in devices ::
                      devices[id] == if id in rest then before[id] else SeenUntil(before, since, seen)[id]
          invariant departureMs == since && connected == old(connected)
        {
          var id :| id in rest;
          if devices[id].lastSeenMs >= since {
            devices := devices[id := devices[id].(lastSeenMs := Max(devices[id].lastSeenMs, seen))];
          }
          rest := rest - {id};
        }
        assert devices == SeenUntil(before, since, seen);
        departureMs := now;
      }
      peers := nowPeers;
    }
  }

  // ------------------------------------------------------------------ what eviction keeps

  /** Eviction only drops, down to the cap, and whoever it drops was heard from before all it keeps. */
  lemma {:induction false} EvictionKeepsTheNewest(devices: map<Id, Device>)
    ensures var kept := Evicted(devices);
            && kept.Keys <= devices.Keys && (forall id | id in kept :: kept[id] == devices[id])
            && |kept| == (if |devices| <= MAX_DEVICES then |devices| else MAX_DEVICES)
            && forall gone, id | gone in devices && gone !in kept && id in kept :: Before(devices, gone, id)
    decreases |devices|
  {
    if |devices| > MAX_DEVICES {
      var oldest := Oldest(devices);
      ShrinksByOne(devices, oldest);
      var rest := devices - {oldest};
      EvictionKeepsTheNewest(rest);
      var kept := Evicted(rest);
      forall gone, id | gone in devices && gone !in kept && id in kept
        ensures Before(devices, gone, id)
      {
        assert gone == oldest || Before(rest, gone, id);
      }
    }
  }

  /** A device heard from later than every other is never evicted. */
  lemma NewestIsKept(devices: map<Id, Device>, id: Id)
    requires id in devices
    requires forall other | other in devices && other != id :: devices[other].lastSeenMs < devices[id].lastSeenMs
    ensures id in Evicted(devices)
  {
    EvictionKeepsTheNewest(devices);
    var kept := Evicted(devices);
    assert kept.Keys != {};
    var other :| other in kept;
    assert id !in kept ==> Before(devices, id, other);
  }

  // ------------------------------------------------------------------ runs

  datatype Event =
    | Announces(id: Id, name: string, os: string)
    | ShowsCard(id: Id, signPub: string, boxPub: string, name: string, os: string)
    | Connects(peers: nat)
    | Disconnects
    | Counts(peers: nat)
    | Forgets(id: Id)
    | Clears

  datatype Timed = Timed(at: nat, event: Event)

  ghost function Step(b: Book, e: Timed): Book {
    match e.event
    case Announces(id, name, os) => Heard(b, id, name, os, e.at)
    case ShowsCard(id, signPub, boxPub, name, os) => HeardCard(b, id, Device(signPub, boxPub, name, os, e.at))
    case Connects(peers) => SetConnected(b, true, peers, e.at)
    case Disconnects => SetConnected(b, false, 0, e.at)
    case Counts(peers) => Presence(b, peers, e.at)
    case Forgets(id) => b.(devices := b.devices - {id})
    case Clears => b.(devices := map[])
  }

  ghost function Run(b: Book, events: seq<Timed>): Book {
    if events == [] then b else Step(Run(b, events[..|events| - 1]), events[|events| - 1])
  }

  /** The list as loaded, before this device first connects. */
  function Loaded(stored: map<Id, Device>): Book {
    Book(stored, false, 0, 0)
  }

  predicate Hears(e: Event, id: Id) {
    (e.Announces? || e.ShowsCard?) && e.id == id
  }

  /** A connect, or a fall in the count: whoever is still there will be heard from again. */
  predicate StartsOver(b: Book, e: Event) {
    e.Connects? || (e.Counts? && e.peers < b.peers)
  }

  /** Whether this run heard from `id`, and neither connected nor saw the count fall after that. */
  ghost predicate HeardSince(b: Book, events: seq<Timed>, id: Id) {
    events != []
    && var init, last := events[..|events| - 1], events[|events| - 1];
       Hears(last.event, id) || (!StartsOver(Run(b, init), last.event) && HeardSince(b, init, id))
  }

  /** The clock is strictly increasing and past every time that was loaded. */
  ghost predicate ClockRuns(stored: map<Id, Device>, events: seq<Timed>) {
    && (forall i, j | 0 <= i < j < |events| :: events[i].at < events[j].at)
    && (forall i, id | 0 <= i < |events| && id in stored :: stored[id].lastSeenMs < events[i].at)
  }

  /** Everything in the list is from before `now`. */
  ghost predicate Earlier(b: Book, now: nat) {
    b.departureMs <= now && forall id | id in b.devices :: b.devices[id].lastSeenMs < now
  }

  /** Hearing from one device changes no other entry, though it may drop some. */
  lemma HearingMeans(b: Book, e: Timed, heard: Id)
    requires Hears(e.event, heard)
    ensures var after := Step(b, e);
            && after.connected == b.connected && after.peers == b.peers && after.departureMs == b.departureMs
            && (heard in after.devices ==> after.devices[heard].lastSeenMs == e.at)
            && (forall id | id in after.devices && id != heard ::
                  id in b.devices && after.devices[id] == b.devices[id])
  {
    match e.event
    case Announces(id, name, os) =>
      var keys := if id in b.devices then (b.devices[id].signPub, b.devices[id].boxPub) else ("", "");
      EvictionKeepsTheNewest(b.devices[id := Device(keys.0, keys.1, name, os, e.at)]);
    case ShowsCard(id, signPub, boxPub, name, os) =>
      var kept := WithoutSuperseded(b.devices, id, name, os);
      EvictionKeepsTheNewest(kept[id := Device(signPub, boxPub, name, os, e.at)]);
  }

  lemma StepIsNoLater(b: Book, e: Timed, now: nat)
    requires Earlier(b, e.at) && e.at < now
    ensures Earlier(Step(b, e), now)
  {
    if e.event.Announces? || e.event.ShowsCard? {
      HearingMeans(b, e, e.event.id);
    }
  }

  lemma {:induction false} RunIsEarlier(stored: map<Id, Device>, events: seq<Timed>, now: nat)
    requires ClockRuns(stored, events) && forall i | 0 <= i < |events| :: events[i].at < now
    requires forall id | id in stored :: stored[id].lastSeenMs < now
    ensures Earlier(Run(Loaded(stored), events), now)
  {
    if events != [] {
      var init, last := events[..|events| - 1], events[|events| - 1];
      RunIsEarlier(stored, init, last.at);
      StepIsNoLater(Run(Loaded(stored), init), last, now);
    }
  }

  /** While connected, who stands past the last departure is who was heard from since. */
  ghost predicate Tracks(b: Book, id: Id, since: bool) {
    id in b.devices && b.connected ==> (b.devices[id].lastSeenMs >= b.departureMs <==> since)
  }

  lemma StepTracks(b: Book, e: Timed, id: Id, since: bool)
    requires Earlier(b, e.at) && Tracks(b, id, since)
    ensures Tracks(Step(b, e), id, Hears(e.event, id) || (!StartsOver(b, e.event) && since))
  {
    if e.event.Announces? || e.event.ShowsCard? {
      HearingMeans(b, e, e.event.id);
    }
  }

  lemma BeforeTheLast(stored: map<Id, Device>, events: seq<Timed>)
    requires ClockRuns(stored, events) && events != []
    ensures var init, last := events[..|events| - 1], events[|events| - 1];
            ClockRuns(stored, init) && Earlier(Run(Loaded(stored), init), last.at)
  {
    RunIsEarlier(stored, events[..|events| - 1], events[|events| - 1].at);
  }

  lemma {:induction false} RunTracks(stored: map<Id, Device>, events: seq<Timed>, id: Id)
    requires ClockRuns(stored, events)
    ensures Tracks(Run(Loaded(stored), events), id, HeardSince(Loaded(stored), events, id))
  {
    if events != [] {
      var b, init := Loaded(stored), events[..|events| - 1];
      BeforeTheLast(stored, events);
      RunTracks(stored, init, id);
      StepTracks(Run(b, init), events[|events| - 1], id, HeardSince(b, init, id));
    }
  }

  /**
   * Over every run, a known device is online exactly when this one is connected and has heard from
   * it since the later of the last connect and the last fall in the count.
   */
  lemma OnlineExactlyWhenHeardSince(stored: map<Id, Device>, events: seq<Timed>, id: Id)
    requires ClockRuns(stored, events) && id in Run(Loaded(stored), events).devices
    ensures var b := Run(Loaded(stored), events);
            Online(b, id) <==> b.connected && HeardSince(Loaded(stored), events, id)
  {
    RunTracks(stored, events, id);
  }

  /** Whoever is heard from stays in the list: only others are dropped for room. */
  lemma JustHeardIsKept(b: Book, e: Timed, id: Id)
    requires Hears(e.event, id) && Earlier(b, e.at)
    ensures id in Step(b, e).devices && |Step(b, e).devices| <= MAX_DEVICES
  {
    match e.event
    case Announces(_, name, os) =>
      var keys := if id in b.devices then (b.devices[id].signPub, b.devices[id].boxPub) else ("", "");
      var devices := b.devices[id := Device(keys.0, keys.1, name, os, e.at)];
      NewestIsKept(devices, id);
      EvictionKeepsTheNewest(devices);
    case ShowsCard(_, signPub, boxPub, name, os) =>
      var kept := WithoutSuperseded(b.devices, id, name, os);
      var devices := kept[id := Device(signPub, boxPub, name, os, e.at)];
      NewestIsKept(devices, id);
      EvictionKeepsTheNewest(devices);
  }

  /** An announcement keeps the keys a card pinned. */
  lemma AnnouncingKeepsKeys(b: Book, e: Timed, id: Id)
    requires Hears(e.event, id) && e.event.Announces? && id in b.devices && Earlier(b, e.at)
    ensures var d := Step(b, e).devices;
            id in d && d[id].signPub == b.devices[id].signPub && d[id].boxPub == b.devices[id].boxPub
  {
    JustHeardIsKept(b, e, id);
    EvictionKeepsTheNewest(b.devices[id := Device(b.devices[id].signPub, b.devices[id].boxPub, e.event.name, e.event.os, e.at)]);
  }

  /**
   * A card drops every entry of that name and system without a key; any other entry goes only for
   * room, when the list is full of devices heard from later.
   */
  lemma CardDropsTheKeyless(b: Book, e: Timed, other: Id)
    requires e.event.ShowsCard? && other in b.devices && other != e.event.id
    ensures var after, d := Step(b, e).devices, b.devices[other];
            if d.boxPub == "" && d.name == e.event.name && d.os == e.event.os then other !in after
            else
              other in after
              || (|after| == MAX_DEVICES
                  && forall kept | kept in after && kept != e.event.id ::
                       kept in b.devices && Before(b.devices, other, kept))
  {
    HearingMeans(b, e, e.event.id);
    var id, card := e.event.id, Device(e.event.signPub, e.event.boxPub, e.event.name, e.event.os, e.at);
    var all := WithoutSuperseded(b.devices, id, card.name, card.os)[id := card];
    EvictionKeepsTheNewest(all);
    var after := Evicted(all);
    forall kept | kept in after && kept != id && other in all && other !in after
      ensures kept in b.devices && Before(b.devices, other, kept)
    {
      assert Before(all, other, kept);
    }
  }

  // ------------------------------------------------------------------ when a device was last seen

  lemma OnlyHearingAdds(b: Book, e: Timed, id: Id)
    requires id in Step(b, e).devices && !Hears(e.event, id)
    ensures id in b.devices
  {
    if e.event.Announces? || e.event.ShowsCard? {
      HearingMeans(b, e, e.event.id);
    }
  }

  /** The moment a device stops being listed as online is the last moment it could have been there. */
  lemma LastSeenWhenItLeft(b: Book, e: Timed, id: Id)
    requires Earlier(b, e.at) && Online(b, id)
    requires id in Step(b, e).devices && !Online(Step(b, e), id)
    ensures match e.event
            case Disconnects => Step(b, e).devices[id].lastSeenMs == e.at
            case Counts(_) => Step(b, e).devices[id].lastSeenMs == e.at - 1
            case _ => e.event.Connects? && Step(b, e).devices[id] == b.devices[id]
  {
    if e.event.Announces? || e.event.ShowsCard? {
      HearingMeans(b, e, e.event.id);
    }
  }

  lemma OfflineStep(b: Book, e: Timed, id: Id)
    requires Earlier(b, e.at) && id in b.devices && !Online(b, id) && !Hears(e.event, id)
    requires e.event.Counts? ==> b.connected
    requires id in Step(b, e).devices
    ensures !Online(Step(b, e), id) && Step(b, e).devices[id].lastSeenMs == b.devices[id].lastSeenMs
  {
    if e.event.Announces? || e.event.ShowsCard? {
      HearingMeans(b, e, e.event.id);
    }
  }

  /** Counts come only over a connection. */
  ghost predicate CountsWhileConnected(b: Book, events: seq<Timed>) {
    events != [] ==>
      var init := events[..|events| - 1];
      CountsWhileConnected(b, init) && (events[|events| - 1].event.Counts? ==> Run(b, init).connected)
  }

  /** An offline device stays offline, last seen when it was, until it is heard from again. */
  lemma {:induction false} OfflineUntilHeard(stored: map<Id, Device>, before: seq<Timed>, after: seq<Timed>, id: Id)
    requires ClockRuns(stored, before + after) && CountsWhileConnected(Loaded(stored), before + after)
    requires id in Run(Loaded(stored), before).devices && !Online(Run(Loaded(stored), before), id)
    requires forall i | 0 <= i < |after| :: !Hears(after[i].event, id)
    requires id in Run(Loaded(stored), before + after).devices
    ensures var earlier, now := Run(Loaded(stored), before), Run(Loaded(stored), before + after);
            !Online(now, id) && now.devices[id].lastSeenMs == earlier.devices[id].lastSeenMs
    decreases |after|
  {
    if after == [] {
      assert before + after == before;
    } else {
      var all, rest := before + after, after[..|after| - 1];
      assert all[..|all| - 1] == before + rest;
      BeforeTheLast(stored, all);
      var b := Run(Loaded(stored), before + rest);
      OnlyHearingAdds(b, all[|all| - 1], id);
      OfflineUntilHeard(stored, before, rest, id);
      OfflineStep(b, all[|all| - 1], id);
    }
  }

  // ------------------------------------------------------------------ when the clock only never goes back

  /** Times never fall, and nothing loaded is from the future. */
  ghost predicate ClockNeverGoesBack(stored: map<Id, Device>, events: seq<Timed>) {
    && (forall i, j | 0 <= i < j < |events| :: events[i].at <= events[j].at)
    && (forall i, id | 0 <= i < |events| && id in stored :: stored[id].lastSeenMs <= events[i].at)
  }

  /** Whether this step writes its own time into the entry: a hearing, or a disconnect of a device that is online. */
  predicate Stamps(b: Book, e: Event, id: Id) {
    Hears(e, id) || (e.Disconnects? && Online(b, id))
  }

  /** Whether the entry was loaded with, or stamped at, the very time `now`. */
  ghost predicate StampedAt(stored: map<Id, Device>, events: seq<Timed>, id: Id, now: nat) {
    if events == [] then id in stored && stored[id].lastSeenMs == now
    else
      var init, last := events[..|events| - 1], events[|events| - 1];
      (last.at == now && Stamps(Run(Loaded(stored), init), last.event, id)) || StampedAt(stored, init, id, now)
  }

  /** What keeps a device listed: a hearing since the list started over, or a stamp of that very time. */
  ghost predicate KeptListed(stored: map<Id, Device>, events: seq<Timed>, id: Id) {
    events != []
    && var init, last := events[..|events| - 1], events[|events| - 1];
       Hears(last.event, id)
       || if StartsOver(Run(Loaded(stored), init), last.event) then StampedAt(stored, init, id, last.at)
          else KeptListed(stored, init, id)
  }

  /** Nothing in the list is from after `now`. */
  ghost predicate NotLater(b: Book, now: nat) {
    b.departureMs <= now && forall id | id in b.devices :: b.devices[id].lastSeenMs <= now
  }

  lemma StepIsNotLater(b: Book, e: Timed, now: nat)
    requires NotLater(b, e.at) && e.at <= now
    ensures NotLater(Step(b, e), now)
  {
    if e.event.Announces? || e.event.ShowsCard? {
      HearingMeans(b, e, e.event.id);
    }
  }

  lemma {:induction false} RunIsNotLater(stored: map<Id, Device>, events: seq<Timed>, now: nat)
    requires ClockNeverGoesBack(stored, events) && forall i | 0 <= i < |events| :: events[i].at <= now
    requires forall id | id in stored :: stored[id].lastSeenMs <= now
    ensures NotLater(Run(Loaded(stored), events), now)
  {
    if events != [] {
      var init, last := events[..|events| - 1], events[|events| - 1];
      RunIsNotLater(stored, init, last.at);
      StepIsNotLater(Run(Loaded(stored), init), last, now);
    }
  }

  /** At a time no earlier than this step, an entry shows that time if it did before or was stamped just now. */
  lemma StepStamps(b: Book, e: Timed, id: Id, now: nat)
    requires NotLater(b, e.at) && e.at <= now && id in Step(b, e).devices
    ensures Step(b, e).devices[id].lastSeenMs == now
            <==> (e.at == now && Stamps(b, e.event, id)) || (id in b.devices && b.devices[id].lastSeenMs == now)
  {
    if e.event.Announces? || e.event.ShowsCard? {
      HearingMeans(b, e, e.event.id);
    }
  }

  lemma {:induction false} NoStampFromTheFuture(stored: map<Id, Device>, events: seq<Timed>, id: Id, now: nat)
    requires forall i | 0 <= i < |events| :: events[i].at < now
    requires forall other | other in stored :: stored[other].lastSeenMs < now
    ensures !StampedAt(stored, events, id, now)
  {
    if events != [] {
      NoStampFromTheFuture(stored, events[..|events| - 1], id, now);
    }
  }

  /** A known entry shows the present time exactly when it was stamped with it. */
  lemma {:induction false} ShowsTheStamp(stored: map<Id, Device>, events: seq<Timed>, id: Id, now: nat)
    requires ClockNeverGoesBack(stored, events) && forall i | 0 <= i < |events| :: events[i].at <= now
    requires forall other | other in stored :: stored[other].lastSeenMs <= now
    requires id in Run(Loaded(stored), events).devices
    ensures Run(Loaded(stored), events).devices[id].lastSeenMs == now <==> StampedAt(stored, events, id, now)
  {
    if events != [] {
      var init, last := events[..|events| - 1], events[|events| - 1];
      var b := Run(Loaded(stored), init);
      RunIsNotLater(stored, init, last.at);
      StepStamps(b, last, id, now);
      if id in b.devices {
        ShowsTheStamp(stored, init, id, now);
      } else {
        OnlyHearingAddsBack(b, last, id);
        if last.at < now {
          FreshHasNoStamp(stored, init, last, id, now);
        }
      }
    }
  }

  lemma OnlyHearingAddsBack(b: Book, e: Timed, id: Id)
    requires id in Step(b, e).devices && id !in b.devices
    ensures Hears(e.event, id)
  {
    if !Hears(e.event, id) {
      OnlyHearingAdds(b, e, id);
    }
  }

  lemma FreshHasNoStamp(stored: map<Id, Device>, init: seq<Timed>, last: Timed, id: Id, now: nat)
    requires ClockNeverGoesBack(stored, init + [last]) && last.at < now
    ensures !StampedAt(stored, init, id, now)
  {
    var all := init + [last];
    assert forall i | 0 <= i < |init| :: all[i] == init[i] && all[|init|] == last;
    assert forall other | other in stored :: stored[other].lastSeenMs <= all[|init|].at;
    NoStampFromTheFuture(stored, init, id, now);
  }

  /** While connected, who stands at or past the last departure is who is kept listed. */
  lemma StepTracksKept(b: Book, e: Timed, id: Id, kept: bool, stamped: bool)
    requires NotLater(b, e.at) && Tracks(b, id, kept)
    requires id in b.devices ==> (b.devices[id].lastSeenMs == e.at <==> stamped)
    ensures Tracks(Step(b, e), id, Hears(e.event, id) || if StartsOver(b, e.event) then stamped else kept)
  {
    if e.event.Announces? || e.event.ShowsCard? {
      HearingMeans(b, e, e.event.id);
    }
  }

  lemma {:induction false} RunTracksKept(stored: map<Id, Device>, events: seq<Timed>, id: Id)
    requires ClockNeverGoesBack(stored, events)
    ensures Tracks(Run(Loaded(stored), events), id, KeptListed(stored, events, id))
  {
    if events != [] {
      var init, last := events[..|events| - 1], events[|events| - 1];
      var b := Run(Loaded(stored), init);
      RunIsNotLater(stored, init, last.at);
      RunTracksKept(stored, init, id);
      if id in b.devices {
        ShowsTheStamp(stored, init, id, last.at);
      }
      StepTracksKept(b, last, id, KeptListed(stored, init, id), StampedAt(stored, init, id, last.at));
    }
  }

  /**
   * Over every run with a clock that never goes back, a known device is online exactly when this one is
   * connected and heard from it since the last connect or fall in the count, or had it stamped, by a
   * hearing, by a disconnect or on disk, with the very time of that connect or fall.
   */
  lemma OnlineExactlyWhenKeptListed(stored: map<Id, Device>, events: seq<Timed>, id: Id)
    requires ClockNeverGoesBack(stored, events) && id in Run(Loaded(stored), events).devices
    ensures var b := Run(Loaded(stored), events);
            Online(b, id) <==> b.connected && KeptListed(stored, events, id)
  {
    RunTracksKept(stored, events, id);
  }

  // ------------------------------------------------------------------ why the clock has to be strict

  lemma RunMore(b: Book, events: seq<Timed>, e: Timed)
    ensures Run(b, events + [e]) == Step(Run(b, events), e)
  {
    assert (events + [e])[..|events|] == events;
  }

  /**
   * Without a strictly increasing clock the list can be wrong: a device heard from in the millisecond
   * of a fall in the count is listed online, although nothing came from it since.
   */
  lemma SameMillisecondKeepsItOnline() returns (events: seq<Timed>)
    ensures forall i, j | 0 <= i < j < |events| :: events[i].at <= events[j].at
    ensures var b := Run(Loaded(map[]), events); Online(b, 7) && !HeardSince(Loaded(map[]), events, 7)
  {
    var start := Loaded(map[]);
    var connects, announces := Timed(1, Connects(2)), Timed(2, Announces(7, "laptop", "Linux"));
    var falls := Timed(2, Counts(1));
    RunMore(start, [], connects);
    var run1 := [] + [connects];
    assert Run(start, run1) == Book(map[], true, 2, 1);
    RunMore(start, run1, announces);
    var run2 := run1 + [announces];
    var heard: map<Id, Device> := map[7 := Device("", "", "laptop", "Linux", 2)];
    assert |heard| <= MAX_DEVICES by {
      assert heard.Keys == {7};
    }
    assert Run(start, run2) == Book(heard, true, 2, 1);
    RunMore(start, run2, falls);
    events := run2 + [falls];
    assert events[..2] == run2 && events[2] == falls;
  }
}
