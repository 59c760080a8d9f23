/**
 * The room registry of server/src/rooms.ts: membership, dedup, and one retained clip per room under
 * a global byte budget.
 *
 * A JavaScript `Map` iterates in insertion order, and ties between equally idle rooms are settled by
 * that order, so it is part of the state. Rooms are values in the map; a room never escapes it.
 */
module Rooms {
  import opened Options

  type RoomId = string
  type MsgId = string
  type ConnId = nat
  type Frame = seq<bv8>

  datatype Retained = Retained(frame: Frame, storedAtMs: int, msgId: MsgId)

  datatype Room = Room(
    connections: set<ConnId>,
    retained: Option<Retained>,
    lastActiveMs: int,
    seen: set<MsgId>,
    seenOrder: seq<MsgId>)

  datatype Caps = Caps(
    retainMaxBytes: nat,
    budgetBytes: nat,
    retainTtlMs: nat,
    maxRooms: nat,
    maxConnsPerRoom: nat,
    dedupWindow: nat)

  type RoomMap = map<RoomId, Room>

  datatype Registry = Registry(rooms: RoomMap, order: seq<RoomId>, retainedBytes: int)

  datatype JoinResult = Joined(peers: nat) | TooManyRooms | RoomFull

  const EMPTY: Registry := Registry(map[], [], 0)

  // ------------------------------------------------------------------ the iteration order

  ghost predicate NoDuplicates<T>(s: seq<T>) {
    forall i, j | 0 <= i < j < |s| :: s[i] != s[j]
  }

  /** `order` lists every room once. */
  ghost predicate Listed(g: Registry) {
    NoDuplicates(g.order) && forall id :: id in g.order <==> id in g.rooms
  }

  function Without(ids: seq<RoomId>, id: RoomId): (rest: seq<RoomId>)
    ensures forall other :: other in rest <==> other in ids && other != id
  {
    if ids == [] then []
    else if ids[0] == id then Without(ids[1..], id)
    else [ids[0]] + Without(ids[1..], id)
  }

  lemma NoDuplicatesCons<T>(head: T, tail: seq<T>)
    ensures NoDuplicates([head] + tail) <==> head !in tail && NoDuplicates(tail)
  {
    var whole := [head] + tail;
    if NoDuplicates(whole) {
      assert forall i | 0 <= i < |tail| :: tail[i] == whole[i + 1] && whole[0] != whole[i + 1];
    }
  }

  lemma {:induction false} WithoutDropsOne(ids: seq<RoomId>, id: RoomId)
    requires NoDuplicates(ids)
    ensures NoDuplicates(Without(ids, id))
    ensures |Without(ids, id)| == if id in ids then |ids| - 1 else |ids|
  {
    if ids != [] {
      assert ids == [ids[0]] + ids[1..];
      NoDuplicatesCons(ids[0], ids[1..]);
      WithoutDropsOne(ids[1..], id);
      NoDuplicatesCons(ids[0], Without(ids[1..], id));
    }
  }

  // ------------------------------------------------------------------ what is retained

  function Size(r: Room): nat {
    if r.retained.None? then 0 else |r.retained.value.frame|
  }

  function TotalBytes(rooms: RoomMap, ids: seq<RoomId>): nat
    requires forall id | id in ids :: id in rooms
  {
    if ids == [] then 0 else Size(rooms[ids[0]]) + TotalBytes(rooms, ids[1..])
  }

  lemma {:induction false} SameSizes(a: RoomMap, b: RoomMap, ids: seq<RoomId>)
    requires forall id | id in ids :: id in a && id in b && Size(a[id]) == Size(b[id])
    ensures TotalBytes(a, ids) == TotalBytes(b, ids)
  {
    if ids != [] {
      SameSizes(a, b, ids[1..]);
    }
  }

  lemma {:induction false} TotalSplits(rooms: RoomMap, ids: seq<RoomId>, id: RoomId)
    requires NoDuplicates(ids) && id in ids && forall other | other in ids :: other in rooms
    ensures TotalBytes(rooms, ids) == Size(rooms[id]) + TotalBytes(rooms, Without(ids, id))
  {
    WithoutDropsOne(ids, id);
    if ids[0] == id {
      WithoutOfAbsent(ids[1..], id);
    } else {
      TotalSplits(rooms, ids[1..], id);
      assert Without(ids, id)[1..] == Without(ids[1..], id);
    }
  }

  lemma {:induction false} WithoutOfAbsent(ids: seq<RoomId>, id: RoomId)
    requires id !in ids
    ensures Without(ids, id) == ids
  {
    if ids != [] {
      WithoutOfAbsent(ids[1..], id);
    }
  }

  lemma TotalAfterPut(rooms: RoomMap, ids: seq<RoomId>, id: RoomId, room: Room)
    requires NoDuplicates(ids) && id in ids && forall other | other in ids :: other in rooms
    ensures TotalBytes(rooms[id := room], ids) == TotalBytes(rooms, ids) - Size(rooms[id]) + Size(room)
  {
    TotalSplits(rooms, ids, id);
    TotalSplits(rooms[id := room], ids, id);
    WithoutDropsOne(ids, id);
    SameSizes(rooms, rooms[id := room], Without(ids, id));
  }

  lemma {:induction false} TotalOfMore(rooms: RoomMap, ids: seq<RoomId>, id: RoomId)
    requires (forall other | other in ids :: other in rooms) && id in rooms
    ensures TotalBytes(rooms, ids + [id]) == TotalBytes(rooms, ids) + Size(rooms[id])
  {
    if ids == [] {
    } else {
      assert (ids + [id])[1..] == ids[1..] + [id];
      TotalOfMore(rooms, ids[1..], id);
    }
  }

  // ------------------------------------------------------------------ operations as functions of the state

  function DropRetained(g: Registry, id: RoomId): Registry
    requires id in g.rooms
  {
    Registry(g.rooms[id := g.rooms[id].(retained := None)], g.order, g.retainedBytes - Size(g.rooms[id]))
  }

  function Delete(g: Registry, id: RoomId): Registry {
    Registry(g.rooms - {id}, Without(g.order, id), g.retainedBytes)
  }

  function Open(g: Registry, id: RoomId, nowMs: int): Registry {
    Registry(g.rooms[id := Room({}, None, nowMs, {}, [])], g.order + [id], g.retainedBytes)
  }

  /** The empty room idle longest, and of equally idle ones the one opened first. */
  function Idlest(rooms: RoomMap, ids: seq<RoomId>): (best: Option<RoomId>)
    requires forall id | id in ids :: id in rooms
    ensures best.Some? ==> best.value in ids
  {
    if ids == [] then None
    else
      var last := ids[|ids| - 1];
      var best := Idlest(rooms, ids[..|ids| - 1]);
      if rooms[last].connections != {} then best
      else if best.None? || rooms[last].lastActiveMs < rooms[best.value].lastActiveMs then Some(last)
      else best
  }

  function EvictIdlest(g: Registry): (Registry, bool)
    requires Listed(g)
  {
    var idlest := Idlest(g.rooms, g.order);
    if idlest.None? then (g, false)
    else (Delete(DropRetained(g, idlest.value), idlest.value), true)
  }

  /** The registry with the room in it, or nothing when every room is in use and there are too many. */
  function MakeRoom(g: Registry, caps: Caps, id: RoomId, nowMs: int): (r: Option<Registry>)
    requires Listed(g)
    ensures r.Some? ==> id in r.value.rooms
  {
    if id in g.rooms then Some(g)
    else if |g.order| < caps.maxRooms then Some(Open(g, id, nowMs))
    else
      var (evicted, ok) := EvictIdlest(g);
      if ok then Some(Open(evicted, id, nowMs)) else None
  }

  function Enter(g: Registry, caps: Caps, conn: ConnId, id: RoomId, nowMs: int): (Registry, JoinResult)
    requires id in g.rooms
  {
    var room := g.rooms[id];
    if |room.connections| >= caps.maxConnsPerRoom then (g, RoomFull)
    else
      var connections := room.connections + {conn};
      (g.(rooms := g.rooms[id := room.(connections := connections, lastActiveMs := nowMs)]), Joined(|connections|))
  }

  function Join(g: Registry, caps: Caps, conn: ConnId, id: RoomId, nowMs: int): (Registry, JoinResult)
    requires Listed(g)
  {
    match MakeRoom(g, caps, id, nowMs)
    case None => (g, TooManyRooms)
    case Some(roomy) => Enter(roomy, caps, conn, id, nowMs)
  }

  function Leave(g: Registry, conn: ConnId, id: RoomId, nowMs: int): Registry {
    if id !in g.rooms then g
    else
      var room := g.rooms[id].(connections := g.rooms[id].connections - {conn}, lastActiveMs := nowMs);
      var left := g.(rooms := g.rooms[id := room]);
      if room.connections == {} && room.retained.None? then Delete(left, id) else left
  }

  function NoteMsg(g: Registry, caps: Caps, id: RoomId, msg: MsgId): (Registry, bool) {
    if id !in g.rooms then (g, false)
    else if msg in g.rooms[id].seen then (g, true)
    else
      var room := g.rooms[id];
      var longer := room.seenOrder + [msg];
      var noted :=
        if |longer| > caps.dedupWindow then
          room.(seen := room.seen + {msg} - {longer[0]}, seenOrder := longer[1..])
        else room.(seen := room.seen + {msg}, seenOrder := longer);
      (g.(rooms := g.rooms[id := noted]), false)
  }

  /** Whether the id is in the room's dedup window. */
  predicate Known(g: Registry, id: RoomId, msg: MsgId) {
    id in g.rooms && msg in g.rooms[id].seen
  }

  function Touch(g: Registry, id: RoomId, nowMs: int): Registry {
    if id !in g.rooms then g else g.(rooms := g.rooms[id := g.rooms[id].(lastActiveMs := nowMs)])
  }

  /** The rooms that hold a clip, other than `exceptId`. */
  function Holding(rooms: RoomMap, ids: seq<RoomId>, exceptId: RoomId): (held: seq<RoomId>)
    requires forall id | id in ids :: id in rooms
    ensures forall id :: id in held <==> id in ids && id != exceptId && rooms[id].retained.Some?
  {
    if ids == [] then []
    else
      (if rooms[ids[0]].retained.Some? && ids[0] != exceptId then [ids[0]] else [])
      + Holding(rooms, ids[1..], exceptId)
  }

  function InsertByActivity(rooms: RoomMap, sorted: seq<RoomId>, id: RoomId): (r: seq<RoomId>)
    requires id in rooms && forall other | other in sorted :: other in rooms
    ensures multiset(r) == multiset(sorted) + multiset{id}
    decreases |sorted|
  {
    if sorted == [] then [id]
    else
      var init, last := sorted[..|sorted| - 1], sorted[|sorted| - 1];
      assert sorted == init + [last];
      if rooms[last].lastActiveMs <= rooms[id].lastActiveMs then sorted + [id]
      else InsertByActivity(rooms, init, id) + [last]
  }

  /** A stable sort by last activity, as `Array.prototype.sort` is. */
  function ByActivity(rooms: RoomMap, ids: seq<RoomId>): (r: seq<RoomId>)
    requires forall id | id in ids :: id in rooms
    ensures multiset(r) == multiset(ids)
    decreases |ids|
  {
    if ids == [] then []
    else
      var init, last := ids[..|ids| - 1], ids[|ids| - 1];
      assert ids == init + [last];
      var sorted := ByActivity(rooms, init);
      assert forall id | id in sorted :: id in multiset(init);
      InsertByActivity(rooms, sorted, last)
  }

  function Candidates(g: Registry, exceptId: RoomId): (r: seq<RoomId>)
    requires Listed(g)
    ensures forall id | id in r :: id in g.rooms
  {
    var held := Holding(g.rooms, g.order, exceptId);
    var r := ByActivity(g.rooms, held);
    assert forall id | id in r :: id in multiset(held);
    r
  }

  function DropUntil(g: Registry, candidates: seq<RoomId>, budget: nat): Registry
    requires forall id | id in candidates :: id in g.rooms
    decreases |candidates|
  {
    if candidates == [] || g.retainedBytes <= budget then g
    else DropUntil(DropRetained(g, candidates[0]), candidates[1..], budget)
  }

  function Store(g: Registry, id: RoomId, frame: Frame, msg: MsgId, nowMs: int): Registry
    requires id in g.rooms
  {
    var room := g.rooms[id].(retained := Some(Retained(frame, nowMs, msg)), lastActiveMs := nowMs);
    Registry(g.rooms[id := room], g.order, g.retainedBytes - Size(g.rooms[id]) + |frame|)
  }

  function Retain(g: Registry, caps: Caps, id: RoomId, frame: Frame, msg: MsgId, nowMs: int): (Registry, bool)
    requires Listed(g)
  {
    if |frame| > caps.retainMaxBytes || id !in g.rooms then (g, false)
    else
      var stored := Store(g, id, frame, msg, nowMs);
      (DropUntil(stored, Candidates(stored, id), caps.budgetBytes), true)
  }

  predicate Expired(room: Room, caps: Caps, nowMs: int) {
    room.retained.Some? && nowMs - room.retained.value.storedAtMs > caps.retainTtlMs
  }

  function Fetch(g: Registry, caps: Caps, id: RoomId, nowMs: int): (Registry, Option<Retained>) {
    if id !in g.rooms || g.rooms[id].retained.None? then (g, None)
    else if Expired(g.rooms[id], caps, nowMs) then (DropRetained(g, id), None)
    else (g, g.rooms[id].retained)
  }

  function SweepRoom(g: Registry, caps: Caps, id: RoomId, nowMs: int): Registry
    requires id in g.rooms
  {
    var kept := if Expired(g.rooms[id], caps, nowMs) then DropRetained(g, id) else g;
    if kept.rooms[id].connections == {} && kept.rooms[id].retained.None? then Delete(kept, id) else kept
  }

  function SweepRooms(g: Registry, caps: Caps, ids: seq<RoomId>, nowMs: int): Registry
    requires NoDuplicates(ids) && forall id | id in ids :: id in g.rooms
    decreases |ids|
  {
    if ids == [] then g else SweepRooms(SweepRoom(g, caps, ids[0], nowMs), caps, ids[1..], nowMs)
  }

  function ExpiredCount(rooms: RoomMap, caps: Caps, ids: seq<RoomId>, nowMs: int): nat
    requires forall id | id in ids :: id in rooms
  {
    if ids == [] then 0
    else (if Expired(rooms[ids[0]], caps, nowMs) then 1 else 0) + ExpiredCount(rooms, caps, ids[1..], nowMs)
  }

  // ------------------------------------------------------------------ the registry object

  class RoomRegistry {
    var rooms: RoomMap
    var order: seq<RoomId>
    var retainedBytes: int
    const caps: Caps

    function State(): Registry
      reads this
    {
      Registry(rooms, order, retainedBytes)
    }

    constructor (caps: Caps)
      ensures this.caps == caps && State() == EMPTY
    {
      this.caps := caps;
      rooms, order, retainedBytes := map[], [], 0;
    }

    method JoinRoom(conn: ConnId, id: RoomId, nowMs: int) returns (result: JoinResult)
      requires Listed(State())
      modifies this
      ensures (State(), result) == Join(old(State()), caps, conn, id, nowMs)
    {
      if id !in rooms {
        if |order| >= caps.maxRooms {
          var evicted := EvictIdlestRoom();
          if !evicted {
            return TooManyRooms;
          }
        }
        rooms, order := rooms[id := Room({}, None, nowMs, {}, [])], order + [id];
      }
      if |rooms[id].connections| >= caps.maxConnsPerRoom {
        return RoomFull;
      }
      rooms := rooms[id := rooms[id].(connections := rooms[id].connections + {conn}, lastActiveMs := nowMs)];
      return Joined(|rooms[id].connections|);
    }

    method LeaveRoom(conn: ConnId, id: RoomId, nowMs: int)
      modifies this
      ensures State() == Leave(old(State()), conn, id, nowMs)
    {
      if id !in rooms {
        return;
      }
      rooms := rooms[id := rooms[id].(connections := rooms[id].connections - {conn}, lastActiveMs := nowMs)];
      if rooms[id].connections == {} && rooms[id].retained.None? {
        rooms, order := rooms - {id}, Without(order, id);
      }
    }

    method Peers(id: RoomId) returns (n: nat)
      ensures n == if id in rooms then |rooms[id].connections| else 0
    {
      return if id in rooms then |rooms[id].connections| else 0;
    }

    method IsDuplicate(id: RoomId, msg: MsgId) returns (known: bool)
      modifies this
      ensures (State(), known) == NoteMsg(old(State()), caps, id, msg)
    {
      if id !in rooms {
        return false;
      }
      var room := rooms[id];
      if msg in room.seen {
        return true;
      }
      room := room.(seen := room.seen + {msg}, seenOrder := room.seenOrder + [msg]);
      if |room.seenOrder| > caps.dedupWindow {
        var oldest := room.seenOrder[0];
        room := room.(seenOrder := room.seenOrder[1..], seen := room.seen - {oldest});
      }
      rooms := rooms[id := room];
      return false;
    }

    /** Answers who the frame goes to. */
    method Broadcast(id: RoomId, sender: ConnId, nowMs: int) returns (recipients: set<ConnId>)
      modifies this
      ensures State() == Touch(old(State()), id, nowMs)
      ensures recipients == if id in rooms then rooms[id].connections - {sender} else {}
    {
      if id !in rooms {
        return {};
      }
      rooms := rooms[id := rooms[id].(lastActiveMs := nowMs)];
      return rooms[id].connections - {sender};
    }

    method RetainClip(id: RoomId, frame: Frame, msg: MsgId, nowMs: int) returns (stored: bool)
      requires Listed(State())
      modifies this
      ensures (State(), stored) == Retain(old(State()), caps, id, frame, msg, nowMs)
    {
      if |frame| > caps.retainMaxBytes {
        return false;
      }
      if id !in rooms {
        return false;
      }
      if rooms[id].retained.Some? {
        retainedBytes := retainedBytes - |rooms[id].retained.value.frame|;
      }
      rooms := rooms[id := rooms[id].(retained := Some(Retained(frame, nowMs, msg)), lastActiveMs := nowMs)];
      retainedBytes := retainedBytes + |frame|;
      assert State() == Store(old(State()), id, frame, msg, nowMs);
      EvictUntilWithinBudget(id);
      return true;
    }

    method RetainedFor(id: RoomId, nowMs: int) returns (clip: Option<Retained>)
      modifies this
      ensures (State(), clip) == Fetch(old(State()), caps, id, nowMs)
    {
      if id !in rooms || rooms[id].retained.None? {
        return None;
      }
      if nowMs - rooms[id].retained.value.storedAtMs > caps.retainTtlMs {
        DropClip(id);
        return None;
      }
      return rooms[id].retained;
    }

    method EvictIdlestRoom() returns (evicted: bool)
      requires Listed(State())
      modifies this
      ensures (State(), evicted) == EvictIdlest(old(State()))
    {
      var idlest: Option<RoomId> := None;
      for i := 0 to |order|
        invariant State() == old(State())
        invariant idlest == Idlest(rooms, order[..i])
      {
        assert order[..i + 1][..i] == order[..i];
        var id := order[i];
        if rooms[id].connections != {} {
          continue;
        }
        if idlest.None? || rooms[id].lastActiveMs < rooms[idlest.value].lastActiveMs {
          idlest := Some(id);
        }
      }
      assert order[..|order|] == order;
      if idlest.None? {
        return false;
      }
      if rooms[idlest.value].retained.Some? {
        DropClip(idlest.value);
      }
      assert State() == DropRetained(old(State()), idlest.value) by {
        var room := old(rooms)[idlest.value];
        assert room.retained.None? ==> room.(retained := None) == room;
      }
      rooms, order := rooms - {idlest.value}, Without(order, idlest.value);
      return true;
    }

    method Sweep(nowMs: int) returns (dropped: nat)
      requires Listed(State())
      modifies this
      ensures State() == SweepRooms(old(State()), caps, old(order), nowMs)
      ensures dropped == ExpiredCount(old(rooms), caps, old(order), nowMs)
    {
      dropped := 0;
      var snapshot := order;
      for i := 0 to |snapshot|
        invariant forall k | i <= k < |snapshot| :: snapshot[k] in rooms && rooms[snapshot[k]] == old(rooms)[snapshot[k]]
        invariant SweepRooms(State(), caps, snapshot[i..], nowMs) == SweepRooms(old(State()), caps, snapshot, nowMs)
        invariant dropped + ExpiredCount(old(rooms), caps, snapshot[i..], nowMs)
                  == ExpiredCount(old(rooms), caps, snapshot, nowMs)
      {
        assert snapshot[i..][0] == snapshot[i] && snapshot[i..][1..] == snapshot[i + 1..];
        var expired := SweepOne(snapshot[i], nowMs);
        if expired {
          dropped := dropped + 1;
        }
      }
    }

    /** One turn of the sweep: answers whether the room's clip had expired. */
    method SweepOne(id: RoomId, nowMs: int) returns (expired: bool)
      requires id in rooms
      modifies this
      ensures State() == SweepRoom(old(State()), caps, id, nowMs)
      ensures forall other | other in old(rooms) && other != id :: other in rooms && rooms[other] == old(rooms)[other]
      ensures expired == Expired(old(rooms)[id], caps, nowMs)
    {
      expired := rooms[id].retained.Some? && nowMs - rooms[id].retained.value.storedAtMs > caps.retainTtlMs;
      if expired {
        DropClip(id);
      }
      if rooms[id].connections == {} && rooms[id].retained.None? {
        rooms, order := rooms - {id}, Without(order, id);
      }
    }

    method DropClip(id: RoomId)
      requires id in rooms
      modifies this
      ensures State() == DropRetained(old(State()), id)
    {
      if rooms[id].retained.None? {
        assert rooms[id].(retained := None) == rooms[id];
        return;
      }
      retainedBytes := retainedBytes - |rooms[id].retained.value.frame|;
      rooms := rooms[id := rooms[id].(retained := None)];
    }

    method EvictUntilWithinBudget(exceptId: RoomId)
      requires Listed(State())
      modifies this
      ensures State() == DropUntil(old(State()), Candidates(old(State()), exceptId), caps.budgetBytes)
    {
      if retainedBytes <= caps.budgetBytes {
        return;
      }
      var candidates := Candidates(State(), exceptId);
      for i := 0 to |candidates|
        invariant rooms.Keys == old(rooms).Keys
        invariant DropUntil(State(), candidates[i..], caps.budgetBytes)
                  == DropUntil(old(State()), candidates, caps.budgetBytes)
      {
        assert candidates[i..][1..] == candidates[i + 1..];
        if retainedBytes <= caps.budgetBytes {
          return;
        }
        DropClip(candidates[i]);
      }
    }
  }
}
