/** In which order the registry lists its rooms, which settles every tie, over every run of its operations. */
module RoomOrder {
  import opened Options
  import opened Rooms
  import opened RoomRuns

  /** Those of `ids` that are among these keys, in their order. */
  function Among(ids: seq<RoomId>, keys: set<RoomId>): seq<RoomId> {
    if ids == [] then []
    else (if ids[0] in keys then [ids[0]] else []) + Among(ids[1..], keys)
  }

  lemma {:induction false} AllAmong(ids: seq<RoomId>, keys: set<RoomId>)
    requires forall id | id in ids :: id in keys
    ensures Among(ids, keys) == ids
  {
    if ids != [] {
      AllAmong(ids[1..], keys);
    }
  }

  lemma {:induction false} WithoutIsAmong(ids: seq<RoomId>, gone: RoomId, keys: set<RoomId>)
    requires forall id | id in ids :: id in keys <==> id != gone
    ensures Without(ids, gone) == Among(ids, keys)
  {
    if ids != [] {
      WithoutIsAmong(ids[1..], gone, keys);
    }
  }

  lemma {:induction false} AmongTwice(ids: seq<RoomId>, more: set<RoomId>, keys: set<RoomId>)
    requires keys <= more
    ensures Among(Among(ids, more), keys) == Among(ids, keys)
  {
    if ids != [] {
      var rest := Among(ids[1..], more);
      AmongTwice(ids[1..], more, keys);
      if ids[0] in more {
        assert Among(ids, more) == [ids[0]] + rest && ([ids[0]] + rest)[1..] == rest;
      } else {
        assert Among(ids, more) == rest;
      }
    }
  }

  lemma SweepRoomOrder(g: Registry, caps: Caps, id: RoomId, nowMs: int)
    requires Sound(g, caps) && id in g.rooms
    ensures var after := SweepRoom(g, caps, id, nowMs);
            after.rooms.Keys <= g.rooms.Keys && after.order == Among(g.order, after.rooms.Keys)
  {
    var after := SweepRoom(g, caps, id, nowMs);
    SweepRoomMeaning(g, caps, id, nowMs);
    if Surviving(g.rooms[id], caps, nowMs) {
      AllAmong(g.order, after.rooms.Keys);
    } else {
      WithoutIsAmong(g.order, id, after.rooms.Keys);
    }
  }

  lemma {:induction false} SweepOrder(g: Registry, caps: Caps, ids: seq<RoomId>, nowMs: int)
    requires Sound(g, caps) && NoDuplicates(ids) && forall id | id in ids :: id in g.rooms
    ensures var after := SweepRooms(g, caps, ids, nowMs);
            after.rooms.Keys <= g.rooms.Keys && after.order == Among(g.order, after.rooms.Keys)
    decreases |ids|
  {
    if ids == [] {
      AllAmong(g.order, g.rooms.Keys);
    } else {
      var first, rest := ids[0], ids[1..];
      assert ids == [first] + rest;
      NoDuplicatesCons(first, rest);
      SweepRoomMeaning(g, caps, first, nowMs);
      SweepRoomOrder(g, caps, first, nowMs);
      var next := SweepRoom(g, caps, first, nowMs);
      SweepOrder(next, caps, rest, nowMs);
      AmongTwice(g.order, next.rooms.Keys, SweepRooms(g, caps, ids, nowMs).rooms.Keys);
    }
  }

  lemma MakeRoomOrder(g: Registry, caps: Caps, room: RoomId, at: int)
    requires Listed(g) && MakeRoom(g, caps, room, at).Some?
    ensures var made := MakeRoom(g, caps, room, at).value;
            made.order == Among(g.order, made.rooms.Keys) + if room in g.rooms then [] else [room]
  {
    var made := MakeRoom(g, caps, room, at).value;
    if room in g.rooms || |g.order| < caps.maxRooms {
      AllAmong(g.order, made.rooms.Keys);
    } else {
      WithoutIsAmong(g.order, Idlest(g.rooms, g.order).value, made.rooms.Keys);
    }
  }

  lemma JoinOrder(g: Registry, caps: Caps, conn: ConnId, room: RoomId, at: int)
    requires Sound(g, caps)
    ensures var after := Join(g, caps, conn, room, at).0;
            after.order == Among(g.order, after.rooms.Keys) + if room !in g.rooms && room in after.rooms then [room] else []
  {
    var made := MakeRoom(g, caps, room, at);
    if made.None? {
      AllAmong(g.order, g.rooms.Keys);
    } else {
      MakeRoomOrder(g, caps, room, at);
      assert Join(g, caps, conn, room, at).0.rooms.Keys == made.value.rooms.Keys;
    }
  }

  lemma LeaveOrder(g: Registry, conn: ConnId, room: RoomId, at: int)
    requires Listed(g)
    ensures var after := Leave(g, conn, room, at); after.order == Among(g.order, after.rooms.Keys)
  {
    var after := Leave(g, conn, room, at);
    if room in after.rooms || room !in g.rooms {
      AllAmong(g.order, after.rooms.Keys);
    } else {
      WithoutIsAmong(g.order, room, after.rooms.Keys);
    }
  }

  lemma RetainOrder(g: Registry, caps: Caps, room: RoomId, frame: Frame, msg: MsgId, at: int)
    requires Sound(g, caps)
    ensures var after := Retain(g, caps, room, frame, msg, at).0;
            after.order == g.order && after.rooms.Keys == g.rooms.Keys && after.order == Among(g.order, after.rooms.Keys)
  {
    if |frame| <= caps.retainMaxBytes && room in g.rooms {
      var k := RetainEvictsTheShortestPrefix(g, caps, room, frame, msg, at);
    }
    AllAmong(g.order, g.rooms.Keys);
  }

  lemma OtherOrder(g: Registry, caps: Caps, op: Op)
    requires Sound(g, caps) && (op.NoteOp? || op.TouchOp? || op.FetchOp?)
    ensures Apply(g, caps, op).order == Among(g.order, Apply(g, caps, op).rooms.Keys)
  {
    assert Apply(g, caps, op).rooms.Keys == g.rooms.Keys;
    AllAmong(g.order, g.rooms.Keys);
  }

  /** The rooms that are still there, in their order, and then the one that was opened, if one was. */
  predicate InOrderOfOpening(before: Registry, after: Registry, op: Op) {
    after.order == Among(before.order, after.rooms.Keys)
                   + if op.JoinOp? && op.id !in before.rooms && op.id in after.rooms then [op.id] else []
  }

  lemma JoinsInOrder(g: Registry, caps: Caps, op: Op)
    requires Sound(g, caps) && op.JoinOp?
    ensures InOrderOfOpening(g, Apply(g, caps, op), op)
  {
    JoinOrder(g, caps, op.conn, op.id, op.at);
  }

  lemma OthersInOrder(g: Registry, caps: Caps, op: Op)
    requires Sound(g, caps) && !op.JoinOp?
    ensures InOrderOfOpening(g, Apply(g, caps, op), op)
  {
    match op
    case LeaveOp(conn, room, at) => LeaveOrder(g, conn, room, at);
    case SweepOp(at) => SweepOrder(g, caps, g.order, at);
    case RetainOp(room, frame, msg, at) => RetainOrder(g, caps, room, frame, msg, at);
    case _ => OtherOrder(g, caps, op);
  }

  /** Rooms stand in the order in which they were opened: an operation puts a new one last and moves no other. */
  lemma OrderAfter(g: Registry, caps: Caps, op: Op)
    requires Sound(g, caps)
    ensures InOrderOfOpening(g, Apply(g, caps, op), op)
  {
    if op.JoinOp? {
      JoinsInOrder(g, caps, op);
    } else {
      OthersInOrder(g, caps, op);
    }
  }
}
