/** Which clip a room of the registry holds, over every run of its operations. */
module RetainedClips {
  import opened Options
  import opened Rooms
  import opened RoomRuns

  // ------------------------------------------------------------------ bytes of a set of rooms

  ghost function Bytes(rooms: RoomMap, ids: set<RoomId>): nat
    requires ids <= rooms.Keys
    decreases |ids|
  {
    if ids == {} then 0
    else
      var id :| id in ids;
      Size(rooms[id]) + Bytes(rooms, ids - {id})
  }

  lemma {:induction false} BytesWithout(rooms: RoomMap, ids: set<RoomId>, id: RoomId)
    requires ids <= rooms.Keys && id in ids
    ensures Bytes(rooms, ids) == Size(rooms[id]) + Bytes(rooms, ids - {id})
    decreases |ids|
  {
    var first :| first in ids && Bytes(rooms, ids) == Size(rooms[first]) + Bytes(rooms, ids - {first});
    if first != id {
      BytesWithout(rooms, ids - {first}, id);
      BytesWithout(rooms, ids - {id}, first);
      assert ids - {first} - {id} == ids - {id} - {first};
    }
  }

  function IdsOf(ids: seq<RoomId>): set<RoomId> {
    set id | id in ids
  }

  lemma {:induction false} TotalIsBytes(rooms: RoomMap, ids: seq<RoomId>)
    requires NoDuplicates(ids) && forall id | id in ids :: id in rooms
    ensures TotalBytes(rooms, ids) == Bytes(rooms, IdsOf(ids))
  {
    if ids != [] {
      var first, rest := ids[0], ids[1..];
      assert ids == [first] + rest;
      NoDuplicatesCons(first, rest);
      TotalIsBytes(rooms, rest);
      BytesWithout(rooms, IdsOf(ids), first);
      assert IdsOf(ids) - {first} == IdsOf(rest);
    }
  }

  lemma {:induction false} SameBytes(a: RoomMap, b: RoomMap, ids: set<RoomId>)
    requires ids <= a.Keys && ids <= b.Keys && forall id | id in ids :: Size(a[id]) == Size(b[id])
    ensures Bytes(a, ids) == Bytes(b, ids)
    decreases |ids|
  {
    if ids != {} {
      var id :| id in ids;
      BytesWithout(a, ids, id);
      BytesWithout(b, ids, id);
      SameBytes(a, b, ids - {id});
    }
  }

  // ------------------------------------------------------------------ whose clip makes way

  /** The clip of `id` and those that have been active at least as recently, but for the clip of `except`. */
  ghost function AsRecent(g: Registry, except: RoomId, id: RoomId): set<RoomId>
    requires id in g.rooms
  {
    set other | other in g.rooms && other != except && g.rooms[other].retained.Some?
                && !Before(g.rooms, g.order, other, id)
  }

  /** Storing so many bytes in `room` leaves no place for the clip of `id` and those as recently active. */
  ghost predicate MakesWay(g: Registry, caps: Caps, room: RoomId, bytes: nat, id: RoomId) {
    && id in g.rooms && id != room && g.rooms[id].retained.Some?
    && bytes + Bytes(g.rooms, AsRecent(g, room, id)) > caps.budgetBytes
  }

  lemma ListedBeforeOneMore(head: RoomId, tail: seq<RoomId>, a: RoomId, b: RoomId)
    ensures ListedBefore([head] + tail, a, b) <==> ListedBefore(tail, a, b) || (head == a && b in tail)
  {
    var whole := [head] + tail;
    if ListedBefore(whole, a, b) {
      var i, j :| 0 <= i < j < |whole| && whole[i] == a && whole[j] == b;
      assert tail[j - 1] == b;
      assert i > 0 ==> tail[i - 1] == a;
    }
    if ListedBefore(tail, a, b) {
      var i, j :| 0 <= i < j < |tail| && tail[i] == a && tail[j] == b;
      assert whole[i + 1] == a && whole[j + 1] == b;
    }
    if head == a && b in tail {
      var j :| 0 <= j < |tail| && tail[j] == b;
      assert whole[0] == a && whole[j + 1] == b;
    }
  }

  lemma {:induction false} HoldingIsOrdered(rooms: RoomMap, ids: seq<RoomId>, except: RoomId, a: RoomId, b: RoomId)
    requires (forall id | id in ids :: id in rooms) && ListedBefore(Holding(rooms, ids, except), a, b)
    ensures ListedBefore(ids, a, b)
  {
    var first, rest := ids[0], ids[1..];
    var held := Holding(rooms, rest, except);
    assert ids == [first] + rest;
    if Holding(rooms, ids, except) == [first] + held {
      ListedBeforeOneMore(first, held, a, b);
    }
    if ListedBefore(held, a, b) {
      HoldingIsOrdered(rooms, rest, except, a, b);
    }
    ListedBeforeOneMore(first, rest, a, b);
  }

  /** The rooms a clip may make way in hold what they held before the new one was stored. */
  lemma StoredOthers(g: Registry, room: RoomId, frame: Frame, msg: MsgId, at: int, a: RoomId, b: RoomId)
    requires Listed(g) && room in g.rooms && a in g.rooms && b in g.rooms && a != room && b != room
    requires var stored := Store(g, room, frame, msg, at);
             Before(stored.rooms, Holding(stored.rooms, stored.order, room), a, b)
    ensures Before(g.rooms, g.order, a, b) && !Before(g.rooms, g.order, b, a)
  {
    var stored := Store(g, room, frame, msg, at);
    if ListedBefore(Holding(stored.rooms, stored.order, room), a, b) {
      HoldingIsOrdered(stored.rooms, stored.order, room, a, b);
    }
    BeforeIsOneWay(g.rooms, g.order, a, b);
  }

  lemma NeverBeforeItself(rooms: RoomMap, ids: seq<RoomId>, id: RoomId)
    requires NoDuplicates(ids) && id in rooms
    ensures !Before(rooms, ids, id, id)
  {
  }

  lemma LaterIsAsRecent(g: Registry, room: RoomId, frame: Frame, msg: MsgId, at: int, i: nat, j: nat)
    requires Listed(g) && room in g.rooms && i <= j < |Candidates(Store(g, room, frame, msg, at), room)|
    ensures var others := Candidates(Store(g, room, frame, msg, at), room);
            others[i] in g.rooms && others[j] in AsRecent(g, room, others[i])
  {
    var stored := Store(g, room, frame, msg, at);
    var others := Candidates(stored, room);
    CandidatesMeaning(stored, room);
    assert others[i] in others && others[j] in others;
    if i < j {
      StoredOthers(g, room, frame, msg, at, others[i], others[j]);
    } else {
      NeverBeforeItself(g.rooms, g.order, others[i]);
    }
  }

  lemma AsRecentIsLater(g: Registry, room: RoomId, frame: Frame, msg: MsgId, at: int, i: nat, other: RoomId)
    requires Listed(g) && room in g.rooms && i < |Candidates(Store(g, room, frame, msg, at), room)|
    requires var id := Candidates(Store(g, room, frame, msg, at), room)[i];
             id in g.rooms && other in AsRecent(g, room, id)
    ensures other in Candidates(Store(g, room, frame, msg, at), room)[i..]
  {
    var stored := Store(g, room, frame, msg, at);
    var others := Candidates(stored, room);
    CandidatesMeaning(stored, room);
    assert other in others;
    var j :| 0 <= j < |others| && others[j] == other;
    if j < i {
      assert others[i] in others;
      StoredOthers(g, room, frame, msg, at, other, others[i]);
    } else {
      assert others[i..][j - i] == other;
    }
  }

  /** From the `i`th candidate on stand exactly it and those as recently active. */
  lemma CandidatesFrom(g: Registry, room: RoomId, frame: Frame, msg: MsgId, at: int, i: nat)
    requires Listed(g) && room in g.rooms && i < |Candidates(Store(g, room, frame, msg, at), room)|
    ensures var others := Candidates(Store(g, room, frame, msg, at), room);
            others[i] in g.rooms && IdsOf(others[i..]) == AsRecent(g, room, others[i])
  {
    var others := Candidates(Store(g, room, frame, msg, at), room);
    LaterIsAsRecent(g, room, frame, msg, at, i, i);
    forall other | other in IdsOf(others[i..])
      ensures other in AsRecent(g, room, others[i])
    {
      var j :| i <= j < |others| && others[j] == other;
      LaterIsAsRecent(g, room, frame, msg, at, i, j);
    }
    forall other | other in AsRecent(g, room, others[i])
      ensures other in IdsOf(others[i..])
    {
      AsRecentIsLater(g, room, frame, msg, at, i, other);
    }
  }

  lemma {:induction false} TotalOfTwo(rooms: RoomMap, first: seq<RoomId>, second: seq<RoomId>)
    requires forall id | id in first + second :: id in rooms
    ensures (forall id | id in first :: id in rooms) && forall id | id in second :: id in rooms
    ensures TotalBytes(rooms, first + second) == TotalBytes(rooms, first) + TotalBytes(rooms, second)
  {
    assert forall id | id in first :: id in first + second;
    assert forall id | id in second :: id in first + second;
    if first == [] {
      assert first + second == second;
    } else {
      assert (first + second)[1..] == first[1..] + second;
      TotalOfTwo(rooms, first[1..], second);
    }
  }

  /** All bytes are those of one room and those of the others that hold a clip. */
  lemma {:induction false} TotalOfHolding(rooms: RoomMap, ids: seq<RoomId>, except: RoomId)
    requires NoDuplicates(ids) && forall id | id in ids :: id in rooms
    ensures TotalBytes(rooms, ids)
            == (if except in ids then Size(rooms[except]) else 0) + TotalBytes(rooms, Holding(rooms, ids, except))
  {
    if ids != [] {
      assert ids == [ids[0]] + ids[1..];
      NoDuplicatesCons(ids[0], ids[1..]);
      TotalOfHolding(rooms, ids[1..], except);
      var first, rest := ids[0], Holding(rooms, ids[1..], except);
      assert ([first] + rest)[1..] == rest;
      if rooms[first].retained.Some? && first != except {
        assert Holding(rooms, ids, except) == [first] + rest;
      } else {
        assert Holding(rooms, ids, except) == rest;
      }
    }
  }

  lemma TotalOfCandidates(stored: Registry, room: RoomId)
    requires Counted(stored) && room in stored.rooms
    ensures stored.retainedBytes == Size(stored.rooms[room]) + TotalBytes(stored.rooms, Candidates(stored, room))
  {
    var held, others := Holding(stored.rooms, stored.order, room), Candidates(stored, room);
    CandidatesMeaning(stored, room);
    HoldingKeepsOrder(stored.rooms, stored.order, room);
    TotalOfHolding(stored.rooms, stored.order, room);
    TotalIsBytes(stored.rooms, held);
    TotalIsBytes(stored.rooms, others);
    assert IdsOf(held) == IdsOf(others);
  }

  lemma NoDuplicatesFrom(ids: seq<RoomId>, i: nat)
    requires NoDuplicates(ids) && i <= |ids|
    ensures NoDuplicates(ids[i..])
  {
  }

  lemma BytesOfTheRest(g: Registry, room: RoomId, frame: Frame, msg: MsgId, at: int, i: nat)
    requires Listed(g) && room in g.rooms && i < |Candidates(Store(g, room, frame, msg, at), room)|
    ensures var stored := Store(g, room, frame, msg, at);
            var others := Candidates(stored, room);
            && others[i] in g.rooms && (forall id | id in others[i..] :: id in stored.rooms)
            && TotalBytes(stored.rooms, others[i..]) == Bytes(g.rooms, AsRecent(g, room, others[i]))
  {
    var stored := Store(g, room, frame, msg, at);
    var others := Candidates(stored, room);
    CandidatesMeaning(stored, room);
    NoDuplicatesFrom(others, i);
    CandidatesFrom(g, room, frame, msg, at, i);
    TotalIsBytes(stored.rooms, others[i..]);
    SameBytes(stored.rooms, g.rooms, AsRecent(g, room, others[i]));
  }

  /** What is left once the first `i` candidates are gone is the new clip and the rest. */
  lemma LeftIsTheRest(g: Registry, room: RoomId, frame: Frame, msg: MsgId, at: int, i: nat)
    requires Counted(g) && room in g.rooms && i < |Candidates(Store(g, room, frame, msg, at), room)|
    ensures var stored := Store(g, room, frame, msg, at);
            var others := Candidates(stored, room);
            && others[i] in g.rooms
            && LeftAfter(stored, others, i) == |frame| + Bytes(g.rooms, AsRecent(g, room, others[i]))
  {
    var stored := Store(g, room, frame, msg, at);
    var others := Candidates(stored, room);
    PutKeeps(g, room, stored.rooms[room]);
    TotalOfCandidates(stored, room);
    assert others == others[..i] + others[i..];
    TotalOfTwo(stored.rooms, others[..i], others[i..]);
    BytesOfTheRest(g, room, frame, msg, at, i);
  }

  /** Fewer are left the more are dropped. */
  lemma LeftFalls(g: Registry, candidates: seq<RoomId>, i: nat, j: nat)
    requires i <= j <= |candidates| && forall id | id in candidates :: id in g.rooms
    ensures LeftAfter(g, candidates, i) >= LeftAfter(g, candidates, j)
  {
    assert candidates[..j] == candidates[..i] + candidates[i..j];
    TotalOfTwo(g.rooms, candidates[..i], candidates[i..j]);
  }

  /**
   * Storing a clip takes the clip of another room away exactly when the new clip, that one and every
   * other one as recently active do not fit the budget together, and changes nothing else there.
   */
  lemma DroppedExactlyWhen(g: Registry, caps: Caps, room: RoomId, frame: Frame, msg: MsgId, at: int, id: RoomId)
    requires Counted(g) && room in g.rooms && |frame| <= caps.retainMaxBytes && id in g.rooms && id != room
    ensures var after := Retain(g, caps, room, frame, msg, at).0.rooms;
            && id in after
            && after[id] == if MakesWay(g, caps, room, |frame|, id) then g.rooms[id].(retained := None) else g.rooms[id]
  {
    var stored := Store(g, room, frame, msg, at);
    var others := Candidates(stored, room);
    var k := RetainEvictsTheShortestPrefix(g, caps, room, frame, msg, at);
    if id in others {
      var i :| 0 <= i < |others| && others[i] == id;
      LeftIsTheRest(g, room, frame, msg, at, i);
      CandidatesMeaning(stored, room);
      if i < k {
        assert others[..k][i] == id;
      } else {
        LeftFalls(stored, others, k, i);
        assert id !in others[..k];
      }
    }
  }

  // ------------------------------------------------------------------ every run

  predicate TooOld(held: Option<Retained>, caps: Caps, at: int) {
    held.Some? && at - held.value.storedAtMs > caps.retainTtlMs
  }

  /** The clip an operation leaves in a room that is still there, given what the room held. */
  ghost function NextHeld(g: Registry, caps: Caps, op: Op, id: RoomId, was: Option<Retained>): Option<Retained> {
    match op
    case RetainOp(room, frame, msg, at) =>
      if |frame| > caps.retainMaxBytes || room !in g.rooms then was
      else if room == id then Some(Retained(frame, at, msg))
      else if MakesWay(g, caps, room, |frame|, id) then None
      else was
    case FetchOp(room, at) => if room == id && TooOld(was, caps, at) then None else was
    case SweepOp(at) => if TooOld(was, caps, at) then None else was
    case _ => was
  }

  function ClipOf(g: Registry, id: RoomId): Option<Retained> {
    if id in g.rooms then g.rooms[id].retained else None
  }

  lemma JoinHolds(g: Registry, caps: Caps, conn: ConnId, room: RoomId, at: int, id: RoomId)
    requires RoomRuns.Sound(g, caps)
    ensures var after := Join(g, caps, conn, room, at).0;
            id in after.rooms ==> after.rooms[id].retained == ClipOf(g, id)
  {
    var made := MakeRoom(g, caps, room, at);
    if made.Some? {
      assert id != room && id in made.value.rooms ==> id in g.rooms && made.value.rooms[id] == g.rooms[id];
    }
  }

  lemma RetainHolds(g: Registry, caps: Caps, room: RoomId, frame: Frame, msg: MsgId, at: int, id: RoomId)
    requires RoomRuns.Sound(g, caps)
    ensures ClipOf(Retain(g, caps, room, frame, msg, at).0, id)
            == NextHeld(g, caps, RetainOp(room, frame, msg, at), id, ClipOf(g, id))
  {
    if |frame| <= caps.retainMaxBytes && room in g.rooms {
      RetainRoom(g, caps, room, frame, msg, at, id);
      if id in g.rooms && id != room {
        DroppedExactlyWhen(g, caps, room, frame, msg, at, id);
      }
    }
  }

  lemma SweepHolds(g: Registry, caps: Caps, at: int, id: RoomId)
    requires RoomRuns.Sound(g, caps)
    ensures var after := SweepRooms(g, caps, g.order, at);
            id in after.rooms ==> after.rooms[id].retained == NextHeld(g, caps, SweepOp(at), id, ClipOf(g, id))
  {
    SweepMeaning(g, caps, g.order, at);
  }

  lemma ApplyHolds(g: Registry, caps: Caps, op: Op, id: RoomId)
    requires RoomRuns.Sound(g, caps)
    ensures var after := Apply(g, caps, op);
            id in after.rooms ==> after.rooms[id].retained == NextHeld(g, caps, op, id, ClipOf(g, id))
  {
    match op
    case JoinOp(conn, room, at) => JoinHolds(g, caps, conn, room, at, id);
    case RetainOp(room, frame, msg, at) => RetainHolds(g, caps, room, frame, msg, at, id);
    case SweepOp(at) => SweepHolds(g, caps, at, id);
    case _ =>
  }

  /** What a room holds, by what was stored in it and what has happened since. */
  ghost function HeldBy(caps: Caps, ops: seq<Op>, id: RoomId): Option<Retained> {
    if ops == [] || id !in AfterOps(caps, ops).rooms then None
    else
      var init, op := ops[..|ops| - 1], ops[|ops| - 1];
      NextHeld(AfterOps(caps, init), caps, op, id, HeldBy(caps, init, id))
  }

  /** Over every run, a room holds the clip last stored in it, until it expires, makes way or the room is forgotten. */
  lemma {:induction false} HoldsExactly(caps: Caps, ops: seq<Op>, id: RoomId)
    ensures ClipOf(AfterOps(caps, ops), id) == HeldBy(caps, ops, id)
  {
    if ops != [] {
      var init, op := ops[..|ops| - 1], ops[|ops| - 1];
      HoldsExactly(caps, init, id);
      ApplyHolds(AfterOps(caps, init), caps, op, id);
    }
  }

  /**
   * Over every run, a clip is handed out if and only if it is the one the room holds and it has not
   * expired; looking takes it away if and only if it has, and changes nothing else.
   */
  lemma ServedExactlyWhenHeld(caps: Caps, ops: seq<Op>, id: RoomId, nowMs: int, clip: Retained)
    ensures var g := AfterOps(caps, ops);
            var (after, served) := Fetch(g, caps, id, nowMs);
            && (served == Some(clip) <==>
                  HeldBy(caps, ops, id) == Some(clip) && nowMs - clip.storedAtMs <= caps.retainTtlMs)
            && (after != g <==> TooOld(HeldBy(caps, ops, id), caps, nowMs))
            && after.order == g.order && after.rooms.Keys == g.rooms.Keys
            && (forall other | other in g.rooms && other != id :: after.rooms[other] == g.rooms[other])
            && (id in g.rooms ==>
                  after.rooms[id] == g.rooms[id].(retained := if after == g then g.rooms[id].retained else None))
  {
    HoldsExactly(caps, ops, id);
  }
}
