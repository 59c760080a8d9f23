/** What every operation of the room registry keeps, and what holds over every run of them. */
module RoomRuns {
  import opened Options
  import opened Rooms

  /** `retainedBytes` is the sum of the lengths of the clips held. */
  ghost predicate Counted(g: Registry) {
    Listed(g) && g.retainedBytes == TotalBytes(g.rooms, g.order)
  }

  function CeilingBytes(caps: Caps): nat {
    if caps.budgetBytes >= caps.retainMaxBytes then caps.budgetBytes else caps.retainMaxBytes
  }

  ghost predicate SoundRoom(r: Room, caps: Caps) {
    |r.connections| <= caps.maxConnsPerRoom
    && Size(r) <= caps.retainMaxBytes
    && NoDuplicates(r.seenOrder)
    && (forall msg :: msg in r.seen <==> msg in r.seenOrder)
    && |r.seenOrder| <= caps.dedupWindow
  }

  ghost predicate Sound(g: Registry, caps: Caps) {
    Counted(g)
    && g.retainedBytes <= CeilingBytes(caps)
    && |g.order| <= caps.maxRooms
    && forall id | id in g.rooms :: SoundRoom(g.rooms[id], caps)
  }

  // ------------------------------------------------------------------ the small steps

  lemma PutKeeps(g: Registry, id: RoomId, room: Room)
    requires Counted(g) && id in g.rooms
    ensures Counted(Registry(g.rooms[id := room], g.order, g.retainedBytes - Size(g.rooms[id]) + Size(room)))
  {
    TotalAfterPut(g.rooms, g.order, id, room);
  }

  lemma OpenKeeps(g: Registry, id: RoomId, nowMs: int)
    requires Counted(g) && id !in g.rooms
    ensures Counted(Open(g, id, nowMs))
  {
    var after := Open(g, id, nowMs);
    assert forall i | 0 <= i < |g.order| :: g.order[i] in g.order;
    SameSizes(g.rooms, after.rooms, g.order);
    TotalOfMore(after.rooms, g.order, id);
  }

  lemma DeleteKeeps(g: Registry, id: RoomId)
    requires Counted(g) && id in g.rooms && g.rooms[id].retained.None?
    ensures Counted(Delete(g, id)) && |Delete(g, id).order| == |g.order| - 1
  {
    WithoutDropsOne(g.order, id);
    TotalSplits(g.rooms, g.order, id);
    SameSizes(g.rooms, g.rooms - {id}, Without(g.order, id));
  }

  lemma DropRetainedKeeps(g: Registry, id: RoomId)
    requires Counted(g) && id in g.rooms
    ensures Counted(DropRetained(g, id)) && 0 <= DropRetained(g, id).retainedBytes <= g.retainedBytes
  {
    PutKeeps(g, id, g.rooms[id].(retained := None));
  }

  // ------------------------------------------------------------------ who makes way

  /** The room chosen is empty, no empty room is idler, and every one opened before it is strictly less idle. */
  lemma {:induction false} IdlestIsLeast(rooms: RoomMap, ids: seq<RoomId>) returns (k: nat)
    requires forall id | id in ids :: id in rooms
    ensures var best := Idlest(rooms, ids);
            if best.None? then forall id | id in ids :: rooms[id].connections != {}
            else k < |ids| && ids[k] == best.value && rooms[best.value].connections == {}
                 && (forall id | id in ids && rooms[id].connections == {} ::
                       rooms[best.value].lastActiveMs <= rooms[id].lastActiveMs)
                 && (forall i | 0 <= i < k && rooms[ids[i]].connections == {} ::
                       rooms[best.value].lastActiveMs < rooms[ids[i]].lastActiveMs)
  {
    k := 0;
    if ids != [] {
      var n := |ids| - 1;
      assert ids == ids[..n] + [ids[n]];
      var earlier := IdlestIsLeast(rooms, ids[..n]);
      k := if Idlest(rooms, ids) == Idlest(rooms, ids[..n]) then earlier else n;
      assert forall i | 0 <= i < n :: ids[..n][i] == ids[i] && ids[i] in ids[..n];
    }
  }

  lemma EvictIdlestKeeps(g: Registry, caps: Caps)
    requires Sound(g, caps)
    ensures Sound(EvictIdlest(g).0, caps)
    ensures EvictIdlest(g).1 ==> |EvictIdlest(g).0.order| == |g.order| - 1
  {
    var idlest := Idlest(g.rooms, g.order);
    if idlest.Some? {
      var id := idlest.value;
      assert id in g.rooms;
      DropRetainedKeeps(g, id);
      DeleteKeeps(DropRetained(g, id), id);
    }
  }

  // ------------------------------------------------------------------ the order clips are dropped in

  ghost predicate ListedBefore(ids: seq<RoomId>, a: RoomId, b: RoomId) {
    exists i, j :: 0 <= i < j < |ids| && ids[i] == a && ids[j] == b
  }

  /** `a` is dropped before `b`: it was active earlier, or just as early and opened before it. */
  ghost predicate Before(rooms: RoomMap, ids: seq<RoomId>, a: RoomId, b: RoomId)
    requires a in rooms && b in rooms
  {
    rooms[a].lastActiveMs < rooms[b].lastActiveMs
    || (rooms[a].lastActiveMs == rooms[b].lastActiveMs
        && ListedBefore(ids, a, b))
  }

  ghost predicate Ranked(rooms: RoomMap, ids: seq<RoomId>, sorted: seq<RoomId>) {
    (forall id | id in sorted :: id in rooms)
    && forall i, j | 0 <= i < j < |sorted| :: Before(rooms, ids, sorted[i], sorted[j])
  }

  lemma RankedAppend(rooms: RoomMap, ids: seq<RoomId>, sorted: seq<RoomId>, id: RoomId)
    requires Ranked(rooms, ids, sorted) && id in rooms
    requires forall other | other in sorted :: Before(rooms, ids, other, id)
    ensures Ranked(rooms, ids, sorted + [id])
  {
    assert forall i | 0 <= i < |sorted| :: sorted[i] in sorted;
  }

  lemma {:induction false} InsertRanked(rooms: RoomMap, ids: seq<RoomId>, sorted: seq<RoomId>, id: RoomId)
    requires Ranked(rooms, ids, sorted) && id in rooms
    requires forall other | other in sorted :: exists i :: 0 <= i < |ids| - 1 && ids[i] == other
    requires ids != [] && ids[|ids| - 1] == id
    ensures Ranked(rooms, ids, InsertByActivity(rooms, sorted, id))
    decreases |sorted|
  {
    if sorted == [] {
      return;
    }
    var init, last := sorted[..|sorted| - 1], sorted[|sorted| - 1];
    if rooms[last].lastActiveMs <= rooms[id].lastActiveMs {
      forall other | other in sorted
        ensures Before(rooms, ids, other, id)
      {
        var k :| 0 <= k < |sorted| && sorted[k] == other;
        assert k < |sorted| - 1 ==> Before(rooms, ids, sorted[k], sorted[|sorted| - 1]);
      }
      RankedAppend(rooms, ids, sorted, id);
    } else {
      assert forall other | other in init :: other in sorted;
      InsertRanked(rooms, ids, init, id);
      var inner := InsertByActivity(rooms, init, id);
      forall other | other in inner
        ensures Before(rooms, ids, other, last)
      {
        assert other in multiset(inner);
        if other != id {
          assert other in multiset(init);
          var k :| 0 <= k < |init| && init[k] == other;
          assert Before(rooms, ids, sorted[k], sorted[|sorted| - 1]);
        }
      }
      RankedAppend(rooms, ids, inner, last);
    }
  }

  lemma {:induction false} ByActivityRanked(rooms: RoomMap, ids: seq<RoomId>)
    requires forall id | id in ids :: id in rooms
    ensures Ranked(rooms, ids, ByActivity(rooms, ids))
    decreases |ids|
  {
    if ids != [] {
      var n := |ids| - 1;
      var init := ids[..n];
      ByActivityRanked(rooms, init);
      var sorted := ByActivity(rooms, init);
      forall i, j | 0 <= i < j < |sorted|
        ensures Before(rooms, ids, sorted[i], sorted[j])
      {
        assert Before(rooms, init, sorted[i], sorted[j]);
        if rooms[sorted[i]].lastActiveMs == rooms[sorted[j]].lastActiveMs {
          var a, b :| 0 <= a < b < |init| && init[a] == sorted[i] && init[b] == sorted[j];
          assert ids[a] == sorted[i] && ids[b] == sorted[j];
        }
      }
      forall other | other in sorted
        ensures exists i :: 0 <= i < n && ids[i] == other
      {
        assert other in multiset(init);
        var i :| 0 <= i < |init| && init[i] == other;
        assert ids[i] == other;
      }
      InsertRanked(rooms, ids, sorted, ids[n]);
    }
  }

  // ------------------------------------------------------------------ the budget

  /** What is left of the count once the first `k` candidates are dropped. */
  function LeftAfter(g: Registry, candidates: seq<RoomId>, k: nat): int
    requires k <= |candidates| && forall id | id in candidates :: id in g.rooms
  {
    g.retainedBytes - TotalBytes(g.rooms, candidates[..k])
  }

  ghost predicate DropsFirst(g: Registry, after: Registry, candidates: seq<RoomId>, k: nat)
    requires k <= |candidates| && forall id | id in candidates :: id in g.rooms
  {
    after.order == g.order && after.rooms.Keys == g.rooms.Keys && after.retainedBytes == LeftAfter(g, candidates, k)
    && forall id | id in g.rooms ::
         after.rooms[id] == if id in candidates[..k] then g.rooms[id].(retained := None) else g.rooms[id]
  }

  lemma LeftAfterFirst(g: Registry, candidates: seq<RoomId>, j: nat)
    requires candidates != [] && NoDuplicates(candidates) && forall id | id in candidates :: id in g.rooms
    requires 1 <= j <= |candidates|
    ensures LeftAfter(g, candidates, j) == LeftAfter(DropRetained(g, candidates[0]), candidates[1..], j - 1)
  {
    var next := DropRetained(g, candidates[0]);
    assert candidates[..j][1..] == candidates[1..][..j - 1];
    SameSizes(g.rooms, next.rooms, candidates[1..][..j - 1]);
  }

  lemma DropsFirstThenMore(g: Registry, after: Registry, candidates: seq<RoomId>, n: nat)
    requires candidates != [] && NoDuplicates(candidates) && forall id | id in candidates :: id in g.rooms
    requires n < |candidates| && DropsFirst(DropRetained(g, candidates[0]), after, candidates[1..], n)
    ensures DropsFirst(g, after, candidates, n + 1)
  {
    LeftAfterFirst(g, candidates, n + 1);
    assert candidates[..n + 1] == [candidates[0]] + candidates[1..][..n];
  }

  /** Dropping stops at the first prefix of the candidates that gets within the budget. */
  lemma {:induction false} DropUntilIsShortest(g: Registry, candidates: seq<RoomId>, budget: nat) returns (k: nat)
    requires NoDuplicates(candidates) && forall id | id in candidates :: id in g.rooms
    ensures k <= |candidates| && DropsFirst(g, DropUntil(g, candidates, budget), candidates, k)
    ensures forall j: nat | j < k :: LeftAfter(g, candidates, j) > budget
    ensures k < |candidates| ==> LeftAfter(g, candidates, k) <= budget
    decreases |candidates|
  {
    k := 0;
    if candidates != [] && g.retainedBytes > budget {
      var rest := candidates[1..];
      assert candidates == [candidates[0]] + rest;
      NoDuplicatesCons(candidates[0], rest);
      var n := DropUntilIsShortest(DropRetained(g, candidates[0]), rest, budget);
      k := n + 1;
      DropsFirstThenMore(g, DropUntil(g, candidates, budget), candidates, n);
      forall j: nat | 1 <= j <= |candidates|
        ensures LeftAfter(g, candidates, j) == LeftAfter(DropRetained(g, candidates[0]), rest, j - 1)
      {
        LeftAfterFirst(g, candidates, j);
      }
    }
  }

  lemma {:induction false} HoldingKeepsOrder(rooms: RoomMap, ids: seq<RoomId>, exceptId: RoomId)
    requires NoDuplicates(ids) && forall id | id in ids :: id in rooms
    ensures NoDuplicates(Holding(rooms, ids, exceptId))
  {
    if ids != [] {
      assert ids == [ids[0]] + ids[1..];
      NoDuplicatesCons(ids[0], ids[1..]);
      HoldingKeepsOrder(rooms, ids[1..], exceptId);
      NoDuplicatesCons(ids[0], Holding(rooms, ids[1..], exceptId));
    }
  }

  lemma NoDuplicatesIsCounts<T>(s: seq<T>)
    ensures NoDuplicates(s) <==> forall x :: multiset(s)[x] <= 1
    decreases |s|
  {
    if s != [] {
      var init, last := s[..|s| - 1], s[|s| - 1];
      assert s == init + [last];
      NoDuplicatesIsCounts(init);
      if NoDuplicates(s) {
        assert last !in multiset(init) by {
          assert last !in init;
        }
      } else {
        var i, j :| 0 <= i < j < |s| && s[i] == s[j];
        if j == |s| - 1 {
          assert init[i] == last && last in multiset(init);
          assert multiset(s)[last] >= 2;
        } else {
          assert init[i] == init[j];
          var x :| multiset(init)[x] > 1;
          assert multiset(s)[x] > 1;
        }
      }
    }
  }

  lemma CandidatesMeaning(g: Registry, exceptId: RoomId)
    requires Listed(g)
    ensures NoDuplicates(Candidates(g, exceptId))
    ensures forall id :: id in Candidates(g, exceptId) <==> id in g.rooms && id != exceptId && g.rooms[id].retained.Some?
    ensures Ranked(g.rooms, Holding(g.rooms, g.order, exceptId), Candidates(g, exceptId))
  {
    var held := Holding(g.rooms, g.order, exceptId);
    var sorted := Candidates(g, exceptId);
    HoldingKeepsOrder(g.rooms, g.order, exceptId);
    NoDuplicatesIsCounts(held);
    NoDuplicatesIsCounts(sorted);
    ByActivityRanked(g.rooms, held);
    assert forall id :: id in sorted <==> id in multiset(sorted);
    assert forall id :: id in held <==> id in multiset(held);
  }

  lemma {:induction false} OneHolds(rooms: RoomMap, ids: seq<RoomId>, id: RoomId)
    requires NoDuplicates(ids) && forall other | other in ids :: other in rooms
    requires forall other | other in ids && other != id :: rooms[other].retained.None?
    ensures TotalBytes(rooms, ids) == if id in ids then Size(rooms[id]) else 0
  {
    if ids != [] {
      assert ids == [ids[0]] + ids[1..];
      NoDuplicatesCons(ids[0], ids[1..]);
      OneHolds(rooms, ids[1..], id);
    }
  }

  lemma {:induction false} DropUntilKeeps(g: Registry, candidates: seq<RoomId>, budget: nat)
    requires Counted(g) && forall id | id in candidates :: id in g.rooms
    ensures Counted(DropUntil(g, candidates, budget))
    decreases |candidates|
  {
    if candidates != [] && g.retainedBytes > budget {
      DropRetainedKeeps(g, candidates[0]);
      DropUntilKeeps(DropRetained(g, candidates[0]), candidates[1..], budget);
    }
  }

  /**
   * Storing a clip drops the clips of the shortest run of other rooms, least recently active first,
   * that gets back within the budget, or of all of them when none does, and of nobody else.
   */
  lemma RetainEvictsTheShortestPrefix(g: Registry, caps: Caps, id: RoomId, frame: Frame, msg: MsgId, nowMs: int)
    returns (k: nat)
    requires Counted(g) && id in g.rooms && |frame| <= caps.retainMaxBytes
    ensures var stored := Store(g, id, frame, msg, nowMs);
            var others := Candidates(stored, id);
            var after := Retain(g, caps, id, frame, msg, nowMs).0;
            Ranked(stored.rooms, Holding(stored.rooms, stored.order, id), others)
            && (forall other :: other in others <==> other in g.rooms && other != id && g.rooms[other].retained.Some?)
            && k <= |others| && DropsFirst(stored, after, others, k)
            && (forall j: nat | j < k :: LeftAfter(stored, others, j) > caps.budgetBytes)
            && (k < |others| ==> LeftAfter(stored, others, k) <= caps.budgetBytes)
  {
    var stored := Store(g, id, frame, msg, nowMs);
    CandidatesMeaning(stored, id);
    k := DropUntilIsShortest(stored, Candidates(stored, id), caps.budgetBytes);
  }

  lemma RetainCounted(g: Registry, caps: Caps, id: RoomId, frame: Frame, msg: MsgId, nowMs: int)
    requires Counted(g) && id in g.rooms && |frame| <= caps.retainMaxBytes
    ensures Counted(Retain(g, caps, id, frame, msg, nowMs).0)
  {
    var stored := Store(g, id, frame, msg, nowMs);
    PutKeeps(g, id, stored.rooms[id]);
    DropUntilKeeps(stored, Candidates(stored, id), caps.budgetBytes);
  }

  /** The budget holds again, or the clip just stored is the only one left. */
  lemma RetainWithinCeiling(g: Registry, caps: Caps, id: RoomId, frame: Frame, msg: MsgId, nowMs: int)
    requires Counted(g) && id in g.rooms && |frame| <= caps.retainMaxBytes
    ensures var after := Retain(g, caps, id, frame, msg, nowMs).0;
            after.retainedBytes <= caps.budgetBytes
            || (after.retainedBytes == |frame|
                && forall other | other in after.rooms && other != id :: after.rooms[other].retained.None?)
  {
    var stored := Store(g, id, frame, msg, nowMs);
    var others := Candidates(stored, id);
    var k := RetainEvictsTheShortestPrefix(g, caps, id, frame, msg, nowMs);
    if k == |others| {
      assert others[..k] == others;
      RetainCounted(g, caps, id, frame, msg, nowMs);
      var after := Retain(g, caps, id, frame, msg, nowMs).0;
      OneHolds(after.rooms, after.order, id);
    }
  }

  lemma RetainKeeps(g: Registry, caps: Caps, id: RoomId, frame: Frame, msg: MsgId, nowMs: int)
    requires Sound(g, caps)
    ensures Sound(Retain(g, caps, id, frame, msg, nowMs).0, caps)
  {
    if |frame| <= caps.retainMaxBytes && id in g.rooms {
      RetainCounted(g, caps, id, frame, msg, nowMs);
      RetainWithinCeiling(g, caps, id, frame, msg, nowMs);
      var k := RetainEvictsTheShortestPrefix(g, caps, id, frame, msg, nowMs);
      var after := Retain(g, caps, id, frame, msg, nowMs).0;
      forall other | other in after.rooms
        ensures SoundRoom(after.rooms[other], caps)
      {
        assert SoundRoom(g.rooms[other], caps);
      }
    }
  }

  // ------------------------------------------------------------------ the sweep

  ghost predicate Surviving(r: Room, caps: Caps, nowMs: int) {
    r.connections != {} || (r.retained.Some? && !Expired(r, caps, nowMs))
  }

  function Aged(r: Room, caps: Caps, nowMs: int): Room {
    if Expired(r, caps, nowMs) then r.(retained := None) else r
  }

  lemma DropSound(g: Registry, caps: Caps, id: RoomId)
    requires Sound(g, caps) && id in g.rooms
    ensures Sound(DropRetained(g, id), caps)
  {
    DropRetainedKeeps(g, id);
    assert SoundRoom(g.rooms[id], caps);
  }

  lemma DeleteSound(g: Registry, caps: Caps, id: RoomId)
    requires Sound(g, caps) && id in g.rooms && g.rooms[id].retained.None?
    ensures Sound(Delete(g, id), caps)
  {
    DeleteKeeps(g, id);
  }

  /** The first half of a turn: an expired clip goes. */
  lemma AgedSound(g: Registry, caps: Caps, id: RoomId, nowMs: int)
    requires Sound(g, caps) && id in g.rooms
    ensures var kept := if Expired(g.rooms[id], caps, nowMs) then DropRetained(g, id) else g;
            Sound(kept, caps) && kept.rooms == g.rooms[id := Aged(g.rooms[id], caps, nowMs)]
  {
    DropSound(g, caps, id);
  }

  lemma SweepRoomMeaning(g: Registry, caps: Caps, id: RoomId, nowMs: int)
    requires Sound(g, caps) && id in g.rooms
    ensures var after := SweepRoom(g, caps, id, nowMs);
            Sound(after, caps)
            && (Surviving(g.rooms[id], caps, nowMs) ==> after.rooms == g.rooms[id := Aged(g.rooms[id], caps, nowMs)])
            && (!Surviving(g.rooms[id], caps, nowMs) ==> after.rooms == g.rooms - {id})
  {
    AgedSound(g, caps, id, nowMs);
    var kept := if Expired(g.rooms[id], caps, nowMs) then DropRetained(g, id) else g;
    if kept.rooms[id].retained.None? {
      DeleteSound(kept, caps, id);
      assert kept.rooms - {id} == g.rooms - {id};
    }
  }

  /** A sweep forgets exactly the rooms nobody is in that hold no live clip, and drops exactly the expired clips. */
  lemma {:induction false} SweepMeaning(g: Registry, caps: Caps, ids: seq<RoomId>, nowMs: int)
    requires Sound(g, caps) && NoDuplicates(ids) && forall id | id in ids :: id in g.rooms
    ensures var after := SweepRooms(g, caps, ids, nowMs);
            Sound(after, caps)
            && (forall id :: id in after.rooms <==>
                  id in g.rooms && (id in ids ==> Surviving(g.rooms[id], caps, nowMs)))
            && (forall id | id in after.rooms ::
                  after.rooms[id] == if id in ids then Aged(g.rooms[id], caps, nowMs) else g.rooms[id])
    decreases |ids|
  {
    if ids != [] {
      var first, rest := ids[0], ids[1..];
      assert ids == [first] + rest;
      NoDuplicatesCons(first, rest);
      SweepRoomMeaning(g, caps, first, nowMs);
      SweepMeaning(SweepRoom(g, caps, first, nowMs), caps, rest, nowMs);
    }
  }

  // ------------------------------------------------------------------ every run

  datatype Op =
    | JoinOp(conn: ConnId, id: RoomId, at: int)
    | LeaveOp(conn: ConnId, id: RoomId, at: int)
    | NoteOp(id: RoomId, msg: MsgId)
    | TouchOp(id: RoomId, at: int)
    | RetainOp(id: RoomId, frame: Frame, msg: MsgId, at: int)
    | FetchOp(id: RoomId, at: int)
    | SweepOp(at: int)

  function Apply(g: Registry, caps: Caps, op: Op): Registry
    requires Listed(g)
  {
    match op
    case JoinOp(conn, id, at) => Join(g, caps, conn, id, at).0
    case LeaveOp(conn, id, at) => Leave(g, conn, id, at)
    case NoteOp(id, msg) => NoteMsg(g, caps, id, msg).0
    case TouchOp(id, at) => Touch(g, id, at)
    case RetainOp(id, frame, msg, at) => Retain(g, caps, id, frame, msg, at).0
    case FetchOp(id, at) => Fetch(g, caps, id, at).0
    case SweepOp(at) => SweepRooms(g, caps, g.order, at)
  }

  /** Replacing a room by a sound one holding the same clip. */
  lemma SameClipKeeps(g: Registry, caps: Caps, id: RoomId, room: Room)
    requires Sound(g, caps) && id in g.rooms && SoundRoom(room, caps) && room.retained == g.rooms[id].retained
    ensures Sound(g.(rooms := g.rooms[id := room]), caps)
  {
    PutKeeps(g, id, room);
  }

  lemma MakeRoomKeeps(g: Registry, caps: Caps, id: RoomId, nowMs: int)
    requires Sound(g, caps)
    ensures var made := MakeRoom(g, caps, id, nowMs); made.Some? ==> Sound(made.value, caps)
  {
    if id !in g.rooms {
      if |g.order| < caps.maxRooms {
        OpenKeeps(g, id, nowMs);
      } else {
        EvictIdlestKeeps(g, caps);
        if EvictIdlest(g).1 {
          OpenKeeps(EvictIdlest(g).0, id, nowMs);
        }
      }
    }
  }

  lemma JoinKeeps(g: Registry, caps: Caps, conn: ConnId, id: RoomId, nowMs: int)
    requires Sound(g, caps)
    ensures Sound(Join(g, caps, conn, id, nowMs).0, caps)
  {
    MakeRoomKeeps(g, caps, id, nowMs);
    var made := MakeRoom(g, caps, id, nowMs);
    if made.Some? {
      var room := made.value.rooms[id];
      if |room.connections| < caps.maxConnsPerRoom {
        SameClipKeeps(made.value, caps, id,
                      room.(connections := room.connections + {conn}, lastActiveMs := nowMs));
      }
    }
  }

  lemma LeaveKeeps(g: Registry, caps: Caps, conn: ConnId, id: RoomId, nowMs: int)
    requires Sound(g, caps)
    ensures Sound(Leave(g, conn, id, nowMs), caps)
  {
    if id in g.rooms {
      var room := g.rooms[id].(connections := g.rooms[id].connections - {conn}, lastActiveMs := nowMs);
      SameClipKeeps(g, caps, id, room);
      var left := g.(rooms := g.rooms[id := room]);
      if room.retained.None? {
        DeleteKeeps(left, id);
      }
    }
  }

  lemma NoteKeeps(g: Registry, caps: Caps, id: RoomId, msg: MsgId)
    requires Sound(g, caps)
    ensures Sound(NoteMsg(g, caps, id, msg).0, caps)
  {
    if id in g.rooms && msg !in g.rooms[id].seen {
      var room := g.rooms[id];
      var longer := room.seenOrder + [msg];
      assert NoDuplicates(longer);
      var noted := NoteMsg(g, caps, id, msg).0.rooms[id];
      forall m
        ensures m in noted.seen <==> m in noted.seenOrder
      {
        assert m in longer <==> m in room.seen || m == msg;
        assert longer == [longer[0]] + longer[1..];
      }
      SameClipKeeps(g, caps, id, noted);
    }
  }

  lemma TouchKeeps(g: Registry, caps: Caps, id: RoomId, nowMs: int)
    requires Sound(g, caps)
    ensures Sound(Touch(g, id, nowMs), caps)
  {
    if id in g.rooms {
      SameClipKeeps(g, caps, id, g.rooms[id].(lastActiveMs := nowMs));
    }
  }

  lemma FetchKeeps(g: Registry, caps: Caps, id: RoomId, nowMs: int)
    requires Sound(g, caps)
    ensures Sound(Fetch(g, caps, id, nowMs).0, caps)
  {
    if id in g.rooms {
      DropRetainedKeeps(g, id);
    }
  }

  lemma MemberOpKeeps(g: Registry, caps: Caps, op: Op)
    requires Sound(g, caps) && (op.JoinOp? || op.LeaveOp? || op.NoteOp? || op.TouchOp?)
    ensures Sound(Apply(g, caps, op), caps)
  {
    match op
    case JoinOp(conn, id, at) => JoinKeeps(g, caps, conn, id, at);
    case LeaveOp(conn, id, at) => LeaveKeeps(g, caps, conn, id, at);
    case NoteOp(id, msg) => NoteKeeps(g, caps, id, msg);
    case TouchOp(id, at) => TouchKeeps(g, caps, id, at);
  }

  lemma RetainOpKeeps(g: Registry, caps: Caps, op: Op)
    requires Sound(g, caps) && op.RetainOp?
    ensures Sound(Apply(g, caps, op), caps)
  {
    RetainKeeps(g, caps, op.id, op.frame, op.msg, op.at);
  }

  lemma FetchOpKeeps(g: Registry, caps: Caps, op: Op)
    requires Sound(g, caps) && op.FetchOp?
    ensures Sound(Apply(g, caps, op), caps)
  {
    FetchKeeps(g, caps, op.id, op.at);
  }

  lemma SweepOpKeeps(g: Registry, caps: Caps, op: Op)
    requires Sound(g, caps) && op.SweepOp?
    ensures Sound(Apply(g, caps, op), caps)
  {
    SweepMeaning(g, caps, g.order, op.at);
  }

  lemma ApplyKeeps(g: Registry, caps: Caps, op: Op)
    requires Sound(g, caps)
    ensures Sound(Apply(g, caps, op), caps)
  {
    match op
    case RetainOp(_, _, _, _) => RetainOpKeeps(g, caps, op);
    case FetchOp(_, _) => FetchOpKeeps(g, caps, op);
    case SweepOp(_) => SweepOpKeeps(g, caps, op);
    case _ => MemberOpKeeps(g, caps, op);
  }

  ghost function AfterOps(caps: Caps, ops: seq<Op>): (g: Registry)
    ensures Sound(g, caps)
  {
    if ops == [] then EMPTY
    else
      var before := AfterOps(caps, ops[..|ops| - 1]);
      ApplyKeeps(before, caps, ops[|ops| - 1]);
      Apply(before, caps, ops[|ops| - 1])
  }

  // ------------------------------------------------------------------ which rooms can disappear

  function Members(g: Registry, id: RoomId): set<ConnId> {
    if id in g.rooms then g.rooms[id].connections else {}
  }

  /** Making room opens an empty room and at most deletes one, so nobody moves. */
  lemma MakeRoomMembers(g: Registry, caps: Caps, room: RoomId, at: int, id: RoomId)
    requires Sound(g, caps)
    ensures var made := MakeRoom(g, caps, room, at); made.Some? ==> Members(made.value, id) == Members(g, id)
  {
    if room !in g.rooms && |g.order| >= caps.maxRooms {
      var k := IdlestIsLeast(g.rooms, g.order);
    }
  }

  lemma EnterMembers(g: Registry, caps: Caps, conn: ConnId, room: RoomId, at: int, id: RoomId)
    requires room in g.rooms
    ensures var (after, result) := Enter(g, caps, conn, room, at);
            Members(after, id) == Members(g, id) + if room == id && result.Joined? then {conn} else {}
  {
  }

  lemma JoinMembers(g: Registry, caps: Caps, conn: ConnId, room: RoomId, at: int, id: RoomId)
    requires Sound(g, caps)
    ensures Members(Join(g, caps, conn, room, at).0, id)
            == Members(g, id) + if room == id && Join(g, caps, conn, room, at).1.Joined? then {conn} else {}
  {
    MakeRoomMembers(g, caps, room, at, id);
    var made := MakeRoom(g, caps, room, at);
    if made.Some? {
      EnterMembers(made.value, caps, conn, room, at, id);
    }
  }

  /** What storing a clip in one room does to any room: at most its clip changes, and its own is new. */
  lemma RetainRoom(g: Registry, caps: Caps, room: RoomId, frame: Frame, msg: MsgId, at: int, id: RoomId)
    requires Sound(g, caps) && |frame| <= caps.retainMaxBytes && room in g.rooms
    ensures var after := Retain(g, caps, room, frame, msg, at).0.rooms;
            && (id in after <==> id in g.rooms)
            && (id in after && id == room ==>
                  after[id] == g.rooms[id].(retained := Some(Retained(frame, at, msg)), lastActiveMs := at))
            && (id in after && id != room ==>
                  after[id] == g.rooms[id] || after[id] == g.rooms[id].(retained := None))
  {
    var k := RetainEvictsTheShortestPrefix(g, caps, room, frame, msg, at);
  }

  lemma RetainMembers(g: Registry, caps: Caps, room: RoomId, frame: Frame, msg: MsgId, at: int, id: RoomId)
    requires Sound(g, caps)
    ensures Members(Retain(g, caps, room, frame, msg, at).0, id) == Members(g, id)
  {
    if |frame| <= caps.retainMaxBytes && room in g.rooms {
      RetainRoom(g, caps, room, frame, msg, at, id);
    }
  }

  lemma NoteMembers(g: Registry, caps: Caps, room: RoomId, msg: MsgId, id: RoomId)
    ensures Members(NoteMsg(g, caps, room, msg).0, id) == Members(g, id)
  {
  }

  lemma FetchMembers(g: Registry, caps: Caps, room: RoomId, at: int, id: RoomId)
    ensures Members(Fetch(g, caps, room, at).0, id) == Members(g, id)
  {
  }

  lemma LeaveMembers(g: Registry, conn: ConnId, room: RoomId, at: int, id: RoomId)
    ensures Members(Leave(g, conn, room, at), id) == Members(g, id) - if room == id then {conn} else {}
  {
  }

  lemma SweepMembers(g: Registry, caps: Caps, at: int, id: RoomId)
    requires Sound(g, caps)
    ensures Members(SweepRooms(g, caps, g.order, at), id) == Members(g, id)
  {
    SweepMeaning(g, caps, g.order, at);
  }

  /** Only joining and leaving change who is in a room, so no operation forgets a room somebody else is in. */
  lemma MembersAfter(g: Registry, caps: Caps, op: Op, id: RoomId)
    requires Sound(g, caps)
    ensures Members(Apply(g, caps, op), id)
            == if op.JoinOp? && op.id == id && Join(g, caps, op.conn, id, op.at).1.Joined? then Members(g, id) + {op.conn}
               else if op.LeaveOp? && op.id == id then Members(g, id) - {op.conn}
               else Members(g, id)
  {
    match op
    case JoinOp(conn, room, at) => JoinMembers(g, caps, conn, room, at, id);
    case LeaveOp(conn, room, at) => LeaveMembers(g, conn, room, at, id);
    case NoteOp(room, msg) => NoteMembers(g, caps, room, msg, id);
    case FetchOp(room, at) => FetchMembers(g, caps, room, at, id);
    case RetainOp(room, frame, msg, at) => RetainMembers(g, caps, room, frame, msg, at, id);
    case SweepOp(at) => SweepMembers(g, caps, at, id);
    case _ =>
  }

  // ------------------------------------------------------------------ who is let in, and which rooms are there

  /** Whether there is, or can be made, a room to open. */
  ghost predicate CanOpen(g: Registry, caps: Caps) {
    |g.order| < caps.maxRooms || exists other | other in g.rooms :: g.rooms[other].connections == {}
  }

  /** The empty room that every other empty room would outlive. */
  ghost predicate IsIdlest(g: Registry, id: RoomId) {
    id in g.rooms && g.rooms[id].connections == {}
    && forall other | other in g.rooms && other != id && g.rooms[other].connections == {} ::
         Before(g.rooms, g.order, id, other)
  }

  lemma IdlestIsIdlest(g: Registry)
    requires Listed(g)
    ensures Idlest(g.rooms, g.order).None? ==> forall other | other in g.rooms :: g.rooms[other].connections != {}
    ensures Idlest(g.rooms, g.order).Some? ==> IsIdlest(g, Idlest(g.rooms, g.order).value)
  {
    var k := IdlestIsLeast(g.rooms, g.order);
    var idlest := Idlest(g.rooms, g.order);
    if idlest.Some? {
      forall other | other in g.rooms && other != idlest.value && g.rooms[other].connections == {}
        ensures Before(g.rooms, g.order, idlest.value, other)
      {
        assert other in g.order;
        var i :| 0 <= i < |g.order| && g.order[i] == other;
        assert i < k ==> g.rooms[idlest.value].lastActiveMs < g.rooms[g.order[i]].lastActiveMs;
      }
    }
  }

  lemma BeforeIsOneWay(rooms: RoomMap, ids: seq<RoomId>, a: RoomId, b: RoomId)
    requires NoDuplicates(ids) && a in rooms && b in rooms && Before(rooms, ids, a, b)
    ensures !Before(rooms, ids, b, a)
  {
  }

  lemma OnlyOneIsIdlest(g: Registry, a: RoomId, b: RoomId)
    requires Listed(g) && IsIdlest(g, a) && IsIdlest(g, b)
    ensures a == b
  {
    if a != b {
      BeforeIsOneWay(g.rooms, g.order, a, b);
    }
  }

  /** Whether somebody who asks to join this room is let in. */
  ghost predicate HasPlace(g: Registry, caps: Caps, id: RoomId) {
    (id in g.rooms || CanOpen(g, caps)) && |Members(g, id)| < caps.maxConnsPerRoom
  }

  /**
   * A join is refused for too many rooms exactly when its room would have to be opened, the cap is
   * reached and every room is in use; otherwise for a full room exactly when that many are in it. Who
   * joins is told how many are in the room, itself among them.
   */
  lemma JoinMeans(g: Registry, caps: Caps, conn: ConnId, id: RoomId, at: int)
    requires Sound(g, caps)
    ensures var result := Join(g, caps, conn, id, at).1;
            && (result.TooManyRooms? <==> id !in g.rooms && !CanOpen(g, caps))
            && (result.RoomFull? <==> (id in g.rooms || CanOpen(g, caps)) && |Members(g, id)| >= caps.maxConnsPerRoom)
            && (result.Joined? <==> HasPlace(g, caps, id))
            && (result.Joined? ==> result.peers == |Members(g, id) + {conn}|)
  {
    IdlestIsIdlest(g);
    MakeRoomMembers(g, caps, id, at, id);
    var idlest := Idlest(g.rooms, g.order);
    if idlest.Some? {
      assert idlest.value in g.rooms && g.rooms[idlest.value].connections == {};
    }
  }

  lemma RoomsAfterJoin(g: Registry, caps: Caps, conn: ConnId, room: RoomId, at: int, id: RoomId)
    requires Sound(g, caps)
    ensures id in Join(g, caps, conn, room, at).0.rooms
            <==> if room == id then id in g.rooms || CanOpen(g, caps)
                 else id in g.rooms && !(room !in g.rooms && |g.order| >= caps.maxRooms && IsIdlest(g, id))
  {
    IdlestIsIdlest(g);
    var idlest := Idlest(g.rooms, g.order);
    if idlest.Some? {
      assert idlest.value in g.rooms && g.rooms[idlest.value].connections == {};
      if IsIdlest(g, id) {
        OnlyOneIsIdlest(g, id, idlest.value);
      }
    }
  }

  /**
   * Which rooms are there after any operation: joining opens one, at the cap in place of the empty one
   * idle longest; leaving forgets one left empty without a clip; a sweep forgets those that do not
   * survive it; nothing else opens or forgets a room.
   */
  lemma RoomsAfter(g: Registry, caps: Caps, op: Op, id: RoomId)
    requires Sound(g, caps)
    ensures id in Apply(g, caps, op).rooms
            <==> match op
                 case JoinOp(_, room, _) =>
                   if room == id then id in g.rooms || CanOpen(g, caps)
                   else id in g.rooms && !(room !in g.rooms && |g.order| >= caps.maxRooms && IsIdlest(g, id))
                 case LeaveOp(conn, room, _) =>
                   id in g.rooms && !(room == id && Members(g, id) - {conn} == {} && g.rooms[id].retained.None?)
                 case SweepOp(at) => id in g.rooms && Surviving(g.rooms[id], caps, at)
                 case _ => id in g.rooms
  {
    match op
    case JoinOp(conn, room, at) => RoomsAfterJoin(g, caps, conn, room, at, id);
    case RetainOp(room, frame, msg, at) =>
      if |frame| <= caps.retainMaxBytes && room in g.rooms {
        RetainRoom(g, caps, room, frame, msg, at, id);
      }
    case SweepOp(at) => SweepMeaning(g, caps, g.order, at);
    case _ =>
  }

  /** A sweep counts exactly the rooms whose clip had expired. */
  lemma {:induction false} CountsTheExpired(rooms: RoomMap, caps: Caps, ids: seq<RoomId>, nowMs: int)
    requires NoDuplicates(ids) && forall id | id in ids :: id in rooms
    ensures ExpiredCount(rooms, caps, ids, nowMs)
            == |set id | id in ids && rooms[id].retained.Some?
                         && nowMs - rooms[id].retained.value.storedAtMs > caps.retainTtlMs|
  {
    if ids != [] {
      var first, rest := ids[0], ids[1..];
      assert ids == [first] + rest;
      NoDuplicatesCons(first, rest);
      CountsTheExpired(rooms, caps, rest, nowMs);
      var all := set id | id in ids && rooms[id].retained.Some? && nowMs - rooms[id].retained.value.storedAtMs > caps.retainTtlMs;
      var others :=
        set id | id in rest && rooms[id].retained.Some? && nowMs - rooms[id].retained.value.storedAtMs > caps.retainTtlMs;
      assert all == others + if Expired(rooms[first], caps, nowMs) then {first} else {};
    }
  }

  // ------------------------------------------------------------------ what a room remembers

  function LastOf<T>(s: seq<T>, n: nat): seq<T> {
    if |s| <= n then s else s[|s| - n..]
  }

  /** What happened in a room since it was opened: when last, what was stored last, and what was accepted as new. */
  datatype History = History(lastActiveMs: int, stored: Option<Retained>, accepted: seq<MsgId>)

  function Remember(h: History, g: Registry, caps: Caps, op: Op, id: RoomId): History
    requires Listed(g)
  {
    var was := if id in g.rooms then h else History(0, None, []);
    match op
    case JoinOp(conn, room, at) =>
      if room == id && (id !in g.rooms || Join(g, caps, conn, id, at).1.Joined?) then was.(lastActiveMs := at) else was
    case LeaveOp(conn, room, at) => if room == id then was.(lastActiveMs := at) else was
    case NoteOp(room, msg) =>
      if room == id && !NoteMsg(g, caps, id, msg).1 then was.(accepted := was.accepted + [msg]) else was
    case TouchOp(room, at) => if room == id then was.(lastActiveMs := at) else was
    case RetainOp(room, frame, msg, at) =>
      if room == id && |frame| <= caps.retainMaxBytes then
        was.(lastActiveMs := at, stored := Some(Retained(frame, at, msg)))
      else was
    case FetchOp(_, _) => was
    case SweepOp(_) => was
  }

  ghost function HistoryOf(caps: Caps, ops: seq<Op>, id: RoomId): History {
    if ops == [] then History(0, None, [])
    else
      var init, op := ops[..|ops| - 1], ops[|ops| - 1];
      Remember(HistoryOf(caps, init, id), AfterOps(caps, init), caps, op, id)
  }

  /** The room's state is what its history says, except that its clip may be gone. */
  ghost predicate Agrees(r: Room, h: History, caps: Caps) {
    r.lastActiveMs == h.lastActiveMs
    && r.seenOrder == LastOf(h.accepted, caps.dedupWindow)
    && (r.retained.Some? ==> r.retained == h.stored)
  }

  ghost predicate Unforgotten(g: Registry, h: History, caps: Caps, id: RoomId) {
    id in g.rooms ==> Agrees(g.rooms[id], h, caps)
  }

  lemma JoinRemembers(h: History, g: Registry, caps: Caps, conn: ConnId, room: RoomId, at: int, id: RoomId)
    requires Sound(g, caps) && Unforgotten(g, h, caps, id)
    ensures Unforgotten(Join(g, caps, conn, room, at).0, Remember(h, g, caps, JoinOp(conn, room, at), id), caps, id)
  {
    var made := MakeRoom(g, caps, room, at);
    if made.Some? {
      assert id != room && id in made.value.rooms ==> id in g.rooms && made.value.rooms[id] == g.rooms[id];
    }
  }

  lemma LastOfOneMore(accepted: seq<MsgId>, msg: MsgId, n: nat)
    ensures var longer := LastOf(accepted, n) + [msg];
            LastOf(accepted + [msg], n) == if |longer| > n then longer[1..] else longer
  {
  }

  lemma NoteRoom(g: Registry, caps: Caps, room: RoomId, msg: MsgId)
    requires room in g.rooms && msg !in g.rooms[room].seen
    ensures var after, longer := NoteMsg(g, caps, room, msg).0.rooms, g.rooms[room].seenOrder + [msg];
            && after.Keys == g.rooms.Keys && (forall id | id in after && id != room :: after[id] == g.rooms[id])
            && after[room].lastActiveMs == g.rooms[room].lastActiveMs && after[room].retained == g.rooms[room].retained
            && after[room].seenOrder == (if |longer| > caps.dedupWindow then longer[1..] else longer)
  {
  }

  lemma NoteRemembers(h: History, g: Registry, caps: Caps, room: RoomId, msg: MsgId, id: RoomId)
    requires Sound(g, caps) && Unforgotten(g, h, caps, id)
    ensures Unforgotten(NoteMsg(g, caps, room, msg).0, Remember(h, g, caps, NoteOp(room, msg), id), caps, id)
  {
    if room in g.rooms && msg !in g.rooms[room].seen {
      NoteRoom(g, caps, room, msg);
      LastOfOneMore(h.accepted, msg, caps.dedupWindow);
    }
  }

  lemma RetainRemembers(h: History, g: Registry, caps: Caps, room: RoomId, frame: Frame, msg: MsgId, at: int, id: RoomId)
    requires Sound(g, caps) && Unforgotten(g, h, caps, id)
    ensures Unforgotten(Retain(g, caps, room, frame, msg, at).0,
                        Remember(h, g, caps, RetainOp(room, frame, msg, at), id), caps, id)
  {
    if |frame| <= caps.retainMaxBytes && room in g.rooms {
      RetainRoom(g, caps, room, frame, msg, at, id);
    }
  }

  lemma SweepRemembers(h: History, g: Registry, caps: Caps, at: int, id: RoomId)
    requires Sound(g, caps) && Unforgotten(g, h, caps, id)
    ensures Unforgotten(SweepRooms(g, caps, g.order, at), Remember(h, g, caps, SweepOp(at), id), caps, id)
  {
    SweepMeaning(g, caps, g.order, at);
  }

  lemma ApplyRemembers(h: History, g: Registry, caps: Caps, op: Op, id: RoomId)
    requires Sound(g, caps) && Unforgotten(g, h, caps, id)
    ensures Unforgotten(Apply(g, caps, op), Remember(h, g, caps, op, id), caps, id)
  {
    match op
    case JoinOp(conn, room, at) => JoinRemembers(h, g, caps, conn, room, at, id);
    case NoteOp(room, msg) => NoteRemembers(h, g, caps, room, msg, id);
    case RetainOp(room, frame, msg, at) => RetainRemembers(h, g, caps, room, frame, msg, at, id);
    case SweepOp(at) => SweepRemembers(h, g, caps, at, id);
    case _ =>
  }

  /**
   * Over every run a room was last active when it was last joined, left, spoken in or stored to, its
   * dedup window is the last `dedupWindow` ids it accepted, and its clip is the newest stored, if any.
   */
  lemma {:induction false} RoomsRemember(caps: Caps, ops: seq<Op>, id: RoomId)
    ensures Unforgotten(AfterOps(caps, ops), HistoryOf(caps, ops, id), caps, id)
  {
    if ops != [] {
      var init, op := ops[..|ops| - 1], ops[|ops| - 1];
      RoomsRemember(caps, init, id);
      ApplyRemembers(HistoryOf(caps, init, id), AfterOps(caps, init), caps, op, id);
    }
  }

  /** Over every run, `isDuplicate` says yes exactly when the id is among those last accepted. */
  lemma DuplicateMeansRecentlyAccepted(caps: Caps, ops: seq<Op>, id: RoomId, msg: MsgId)
    requires id in AfterOps(caps, ops).rooms
    ensures NoteMsg(AfterOps(caps, ops), caps, id, msg).1
            <==> msg in LastOf(HistoryOf(caps, ops, id).accepted, caps.dedupWindow)
  {
    RoomsRemember(caps, ops, id);
    assert SoundRoom(AfterOps(caps, ops).rooms[id], caps);
  }

  /** Over every run, a clip that is handed out is the newest stored in its room and is not expired. */
  lemma ServedClipIsNewestAndLive(caps: Caps, ops: seq<Op>, id: RoomId, nowMs: int)
    ensures var served := Fetch(AfterOps(caps, ops), caps, id, nowMs).1;
            served.Some? ==> served == HistoryOf(caps, ops, id).stored
                             && nowMs - served.value.storedAtMs <= caps.retainTtlMs
  {
    RoomsRemember(caps, ops, id);
  }
}
