/**
 * What the device list of crates/asli-app/src/devices.rs holds, over every run: each entry as it was last
 * heard, and who makes room for whom.
 */
module DeviceEntries {
  import opened Options
  import opened Devices

  // ------------------------------------------------------------------ the connection, from the run

  function ConnectedBy(events: seq<Timed>): bool {
    events != []
    && match events[|events| - 1].event
       case Connects(_) => true
       case Disconnects => false
       case _ => ConnectedBy(events[..|events| - 1])
  }

  /** The last count of connections heard. */
  function CountBy(events: seq<Timed>): nat {
    if events == [] then 0
    else
      match events[|events| - 1].event
      case Connects(peers) => peers
      case Disconnects => 0
      case Counts(peers) => peers
      case _ => CountBy(events[..|events| - 1])
  }

  /** When this device last connected or the count last fell. */
  function DepartureBy(events: seq<Timed>): nat {
    if events == [] then 0
    else
      var init, e := events[..|events| - 1], events[|events| - 1];
      if e.event.Connects? || (e.event.Counts? && e.event.peers < CountBy(init)) then e.at else DepartureBy(init)
  }

  // ------------------------------------------------------------------ one entry, from the run

  /** What a step makes of an entry that stays, or of one that comes. */
  function EntryAfter(was: Option<Device>, before: seq<Timed>, e: Timed, id: Id): Option<Device> {
    match e.event
    case Announces(other, name, os) =>
      if other != id then was
      else if was.Some? then Some(was.value.(name := name, os := os, lastSeenMs := e.at))
      else Some(Device("", "", name, os, e.at))
    case ShowsCard(other, signPub, boxPub, name, os) =>
      if other != id then was else Some(Device(signPub, boxPub, name, os, e.at))
    case Disconnects =>
      if was.Some? && ConnectedBy(before) && was.value.lastSeenMs >= DepartureBy(before) then
        Some(was.value.(lastSeenMs := e.at))
      else was
    case Counts(peers) =>
      if was.Some? && peers < CountBy(before) && was.value.lastSeenMs >= DepartureBy(before) && was.value.lastSeenMs + 1 < e.at
      then Some(was.value.(lastSeenMs := e.at - 1))
      else was
    case _ => was
  }

  /** The entry as loaded, heard and seen, for as long as it is in the list. */
  ghost function EntryBy(stored: map<Id, Device>, events: seq<Timed>, id: Id): Option<Device> {
    if id !in Run(Loaded(stored), events).devices then None
    else if events == [] then Some(stored[id])
    else
      var init := events[..|events| - 1];
      EntryAfter(EntryBy(stored, init, id), init, events[|events| - 1], id)
  }

  ghost predicate Follows(stored: map<Id, Device>, events: seq<Timed>, id: Id) {
    var b := Run(Loaded(stored), events);
    && b.connected == ConnectedBy(events) && b.peers == CountBy(events) && b.departureMs == DepartureBy(events)
    && EntryBy(stored, events, id) == if id in b.devices then Some(b.devices[id]) else None
  }

  lemma HearingFollows(b: Book, e: Timed, id: Id)
    requires (e.event.Announces? || e.event.ShowsCard?) && id in Step(b, e).devices
    ensures var was := if id in b.devices then Some(b.devices[id]) else None;
            Some(Step(b, e).devices[id]) == EntryAfter(was, [], e, id)
  {
    match e.event
    case Announces(other, name, os) =>
      var keys := if other in b.devices then (b.devices[other].signPub, b.devices[other].boxPub) else ("", "");
      EvictionKeepsTheNewest(b.devices[other := Device(keys.0, keys.1, name, os, e.at)]);
    case ShowsCard(other, signPub, boxPub, name, os) =>
      EvictionKeepsTheNewest(WithoutSuperseded(b.devices, other, name, os)[other := Device(signPub, boxPub, name, os, e.at)]);
  }

  lemma HeardStepFollows(stored: map<Id, Device>, events: seq<Timed>, id: Id)
    requires events != [] && Follows(stored, events[..|events| - 1], id)
    requires events[|events| - 1].event.Announces? || events[|events| - 1].event.ShowsCard?
    ensures Follows(stored, events, id)
  {
    var b, e := Run(Loaded(stored), events[..|events| - 1]), events[|events| - 1];
    HearingMeans(b, e, e.event.id);
    if id in Step(b, e).devices {
      HearingFollows(b, e, id);
    }
  }

  /** What a step other than a hearing makes of an entry. */
  lemma SeenFollows(b: Book, before: seq<Timed>, e: Timed, id: Id)
    requires !e.event.Announces? && !e.event.ShowsCard? && id in Step(b, e).devices
    requires b.connected == ConnectedBy(before) && b.peers == CountBy(before) && b.departureMs == DepartureBy(before)
    ensures id in b.devices && Some(Step(b, e).devices[id]) == EntryAfter(Some(b.devices[id]), before, e, id)
  {
  }

  lemma OtherStepFollows(stored: map<Id, Device>, events: seq<Timed>, id: Id)
    requires events != [] && Follows(stored, events[..|events| - 1], id)
    requires !events[|events| - 1].event.Announces? && !events[|events| - 1].event.ShowsCard?
    ensures Follows(stored, events, id)
  {
    var init := events[..|events| - 1];
    var b, e := Run(Loaded(stored), init), events[|events| - 1];
    if id in Step(b, e).devices {
      SeenFollows(b, init, e, id);
    }
  }

  /**
   * Over every run, a known device is listed with the name and system it was last heard under and the keys
   * of its last card, or those it was loaded with, and as last seen when it was last heard, or when it left.
   */
  lemma {:induction false} ListedAsLastHeard(stored: map<Id, Device>, events: seq<Timed>, id: Id)
    ensures Follows(stored, events, id)
  {
    if events != [] {
      ListedAsLastHeard(stored, events[..|events| - 1], id);
      if events[|events| - 1].event.Announces? || events[|events| - 1].event.ShowsCard? {
        HeardStepFollows(stored, events, id);
      } else {
        OtherStepFollows(stored, events, id);
      }
    }
  }

  // ------------------------------------------------------------------ who is in the list

  /** The entries that would stay longer than this one. */
  ghost function Outliving(devices: map<Id, Device>, id: Id): set<Id>
    requires id in devices
  {
    set other | other in devices && other != id && Before(devices, id, other)
  }

  lemma SubsetIsSmaller(a: set<Id>, b: set<Id>)
    requires a <= b
    ensures |a| <= |b|
  {
    if a != b {
      var x :| x in b && x !in a;
      SubsetIsSmaller(a, b - {x});
    }
  }

  /** An entry stays exactly when fewer than the list holds outlive it. */
  lemma KeptExactlyWhen(devices: map<Id, Device>, id: Id)
    requires id in devices
    ensures id in Evicted(devices) <==> |Outliving(devices, id)| < MAX_DEVICES
  {
    EvictionKeepsTheNewest(devices);
    var kept := Evicted(devices);
    if id in kept {
      SubsetIsSmaller(Outliving(devices, id), kept.Keys - {id});
      assert |kept.Keys - {id}| == |kept.Keys| - 1;
    } else {
      SubsetIsSmaller(kept.Keys, Outliving(devices, id));
    }
  }

  /** The list with an announcement or a card put in, before anybody makes room. */
  ghost function WithHeard(b: Book, e: Timed): map<Id, Device>
    requires e.event.Announces? || e.event.ShowsCard?
  {
    var others :=
      map other | other in b.devices && other != e.event.id
                  && !(e.event.ShowsCard? && b.devices[other].boxPub == ""
                       && b.devices[other].name == e.event.name && b.devices[other].os == e.event.os) :: b.devices[other];
    var was := if e.event.id in b.devices then Some(b.devices[e.event.id]) else None;
    others[e.event.id := EntryAfter(was, [], e, e.event.id).value]
  }

  /**
   * Who is in the list after any step: hearing from a device puts it in, a card takes its keyless twins
   * out, and of what there is then an entry stays exactly when fewer than the list holds outlive it;
   * forgetting takes one out, clearing takes all, and nothing else takes anybody.
   */
  lemma KnownExactlyWhen(b: Book, e: Timed, id: Id)
    ensures id in Step(b, e).devices
            <==> match e.event
                 case Announces(_, _, _) => id in WithHeard(b, e) && |Outliving(WithHeard(b, e), id)| < MAX_DEVICES
                 case ShowsCard(_, _, _, _, _) => id in WithHeard(b, e) && |Outliving(WithHeard(b, e), id)| < MAX_DEVICES
                 case Forgets(other) => id in b.devices && id != other
                 case Clears => false
                 case _ => id in b.devices
  {
    match e.event
    case Announces(other, name, os) =>
      var keys := if other in b.devices then (b.devices[other].signPub, b.devices[other].boxPub) else ("", "");
      assert WithHeard(b, e) == b.devices[other := Device(keys.0, keys.1, name, os, e.at)];
      EvictedFrom(WithHeard(b, e), id);
    case ShowsCard(other, signPub, boxPub, name, os) =>
      assert WithHeard(b, e)
             == WithoutSuperseded(b.devices, other, name, os)[other := Device(signPub, boxPub, name, os, e.at)];
      EvictedFrom(WithHeard(b, e), id);
    case _ =>
  }

  lemma EvictedFrom(devices: map<Id, Device>, id: Id)
    ensures id in Evicted(devices) <==> id in devices && |Outliving(devices, id)| < MAX_DEVICES
  {
    EvictionKeepsTheNewest(devices);
    if id in devices {
      KeptExactlyWhen(devices, id);
    }
  }
}
