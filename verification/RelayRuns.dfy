/**
 * What the relay of server/src/server.ts does with what it is sent, over every run: which sessions come,
 * get ready and are closed, which operations its registry performs, and what each room holds.
 */
module RelayRuns {
  import opened Options
  import opened Rooms
  import opened RoomRuns
  import opened RetainedClips
  import opened Relay
  import IpLimits

  /** A session whose socket is open and that is in this phase: one whose frames are acted on. */
  predicate Listens(s: Relay, sid: SessionId, phase: Phase) {
    sid in s.sessions && s.sessions[sid].open && s.sessions[sid].phase == phase
  }

  // ------------------------------------------------------------------ sessions

  predicate From(e: Event, sid: SessionId, message: Message) {
    e.Received? && e.sid == sid && e.message == message
  }

  /** A proof that the session belongs to a room, which has a place for it. */
  ghost predicate Proves(s: Relay, cfg: Settings, e: Event, sid: SessionId, room: RoomId) {
    Listens(s, sid, Challenged) && From(e, sid, Auth(Some(room))) && HasPlace(s.registry, cfg.caps, room)
  }

  ghost predicate ProvesSome(s: Relay, cfg: Settings, e: Event, sid: SessionId) {
    e.Received? && e.message.Auth? && e.message.verdict.Some? && Proves(s, cfg, e, sid, e.message.verdict.value)
  }

  /** A frame that does not belong where the session stands, or one refused for good. */
  ghost predicate Offends(s: Relay, cfg: Settings, e: Event, sid: SessionId)
    requires sid in s.sessions
  {
    && e.Received? && e.sid == sid
    && if e.message.Refused? then e.message.closes
       else
         match s.sessions[sid].phase
         case Connected => e.message != Hello(true)
         case Challenged => !ProvesSome(s, cfg, e, sid)
         case Ready =>
           e.message.Hello? || e.message.Auth? || (e.message.Clip? && !e.message.fits) || (e.message.Note? && !e.message.fits)
  }

  /**
   * In every reachable state, a session comes exactly when somebody whose address is let in connects,
   * with its socket open and nothing proved, and goes exactly when it is gone.
   */
  lemma SessionsComeAndGo(s: Relay, cfg: Settings, e: Event, sid: SessionId)
    requires Inv(s, cfg)
    ensures var after := Step(s, cfg, e).sessions;
            && (sid !in s.sessions ==>
                  (sid in after
                   <==> e.Arrived? && e.sid == sid && !e.crowded && IpLimits.LetsIn(s.entries, cfg.ip, e.ipKey, e.at)))
            && (sid !in s.sessions && sid in after ==> after[sid] == Session(Connected, "", e.ipKey, false, true))
            && (sid in s.sessions ==> (sid !in after <==> e.Gone? && e.sid == sid))
  {
    match e
    case Arrived(_, ipKey, crowded, at) => IpLimits.AnswerMeans(s.entries, cfg.ip, ipKey, at);
    case Received(other, message, at) => ReceiveKeepsSessions(s, cfg, other, message, at);
    case _ =>
  }

  lemma AuthenticateMeans(s: Relay, cfg: Settings, sid: SessionId, verdict: Option<RoomId>, nowMs: int)
    requires Inv(s, cfg) && sid in s.sessions
    ensures var was, after := s.sessions[sid], Authenticate(s, cfg, sid, verdict, nowMs).sessions;
            && after.Keys == s.sessions.Keys && (forall other | other in after && other != sid :: after[other] == s.sessions[other])
            && if verdict.None? then after[sid] == was.(open := false)
               else if HasPlace(s.registry, cfg.caps, verdict.value) then
                 after[sid] == was.(roomId := verdict.value, joined := true, phase := Ready)
               else after[sid] == was.(roomId := verdict.value, open := false)
  {
    if verdict.Some? {
      JoinMeans(s.registry, cfg.caps, sid, verdict.value, nowMs);
    }
  }

  lemma ReceiveKeepsSessions(s: Relay, cfg: Settings, sid: SessionId, message: Message, nowMs: int)
    requires Inv(s, cfg)
    ensures var after := Receive(s, cfg, sid, message, nowMs).sessions;
            after.Keys == s.sessions.Keys && forall other | other in after && other != sid :: after[other] == s.sessions[other]
  {
    if Listens(s, sid, Challenged) && message.Auth? {
      AuthenticateMeans(s, cfg, sid, message.verdict, nowMs);
    }
  }

  /** How a session stands after a step, given where it stood. */
  ghost predicate Moves(s: Relay, cfg: Settings, e: Event, sid: SessionId, was: Session, now: Session)
    requires sid in s.sessions
  {
    && now.ipKey == was.ipKey
    && (now.phase == Challenged
        <==> (was.phase == Challenged && !ProvesSome(s, cfg, e, sid))
             || (Listens(s, sid, Connected) && From(e, sid, Hello(true))))
    && (now.phase == Ready <==> was.phase == Ready || ProvesSome(s, cfg, e, sid))
    && (was.phase == Ready ==> now.roomId == was.roomId)
    && (ProvesSome(s, cfg, e, sid) ==> now.roomId == e.message.verdict.value)
    && (now.open <==> was.open && e != Closing(sid) && !Offends(s, cfg, e, sid))
  }

  lemma GreetingMoves(s: Relay, cfg: Settings, sid: SessionId, message: Message, at: int)
    requires Inv(s, cfg) && sid in s.sessions && s.sessions[sid].phase == Connected
    ensures var after := Receive(s, cfg, sid, message, at).sessions;
            sid in after && Moves(s, cfg, Received(sid, message, at), sid, s.sessions[sid], after[sid])
  {
  }

  lemma ProofMoves(s: Relay, cfg: Settings, sid: SessionId, message: Message, at: int)
    requires Inv(s, cfg) && Listens(s, sid, Challenged) && message.Auth?
    ensures var after := Receive(s, cfg, sid, message, at).sessions;
            sid in after && Moves(s, cfg, Received(sid, message, at), sid, s.sessions[sid], after[sid])
  {
    AuthenticateMeans(s, cfg, sid, message.verdict, at);
  }

  lemma NoProofMoves(s: Relay, cfg: Settings, sid: SessionId, message: Message, at: int)
    requires Inv(s, cfg) && sid in s.sessions && s.sessions[sid].phase == Challenged
    requires !s.sessions[sid].open || !message.Auth?
    ensures var after := Receive(s, cfg, sid, message, at).sessions;
            sid in after && Moves(s, cfg, Received(sid, message, at), sid, s.sessions[sid], after[sid])
  {
  }

  lemma ReadyMoves(s: Relay, cfg: Settings, sid: SessionId, message: Message, at: int)
    requires Inv(s, cfg) && sid in s.sessions && s.sessions[sid].phase == Ready
    ensures var after := Receive(s, cfg, sid, message, at).sessions;
            sid in after && Moves(s, cfg, Received(sid, message, at), sid, s.sessions[sid], after[sid])
  {
  }

  /**
   * In every reachable state, a session that stays is challenged exactly by a hello that fits, gets ready
   * exactly by a proof for a room that has a place, in that room, and has its socket closed exactly when
   * that is decided elsewhere or its frame offends.
   */
  lemma SessionMovesExactlyWhen(s: Relay, cfg: Settings, e: Event, sid: SessionId)
    requires Inv(s, cfg) && sid in s.sessions && sid in Step(s, cfg, e).sessions
    ensures Moves(s, cfg, e, sid, s.sessions[sid], Step(s, cfg, e).sessions[sid])
  {
    if e.Received? {
      ReceiveKeepsSessions(s, cfg, e.sid, e.message, e.at);
      if e.sid == sid {
        match s.sessions[sid].phase
        case Connected => GreetingMoves(s, cfg, sid, e.message, e.at);
        case Challenged =>
          if s.sessions[sid].open && e.message.Auth? {
            ProofMoves(s, cfg, sid, e.message, e.at);
          } else {
            NoProofMoves(s, cfg, sid, e.message, e.at);
          }
        case Ready => ReadyMoves(s, cfg, sid, e.message, e.at);
      }
    }
  }

  /** Whether this session proved it belongs to this room, which had a place, and is not gone since. */
  ghost predicate Welcomed(cfg: Settings, events: seq<Event>, sid: SessionId, room: RoomId) {
    events != []
    && var init, e := events[..|events| - 1], events[|events| - 1];
       Proves(After(cfg, init), cfg, e, sid, room) || (!Leaves(e, sid) && Welcomed(cfg, init, sid, room))
  }

  /**
   * Over every run, a session is ready in a room if and only if it proved it belongs there, while its
   * socket was open and it was challenged and the room had a place, and it is not gone since.
   */
  lemma {:induction false} ReadyExactlyWhenWelcomed(cfg: Settings, events: seq<Event>, sid: SessionId, room: RoomId)
    ensures var s := After(cfg, events);
            sid in s.sessions && s.sessions[sid].phase == Ready && s.sessions[sid].roomId == room
            <==> Welcomed(cfg, events, sid, room)
  {
    if events != [] {
      var init, e := events[..|events| - 1], events[|events| - 1];
      var s := After(cfg, init);
      ReadyExactlyWhenWelcomed(cfg, init, sid, room);
      SessionsComeAndGo(s, cfg, e, sid);
      if sid in s.sessions && sid in Step(s, cfg, e).sessions {
        SessionMovesExactlyWhen(s, cfg, e, sid);
      }
    }
  }

  // ------------------------------------------------------------------ what the registry is asked to do

  /** A proof is a join, and whoever gets in looks for a clip. */
  ghost function ProofOps(g: Registry, caps: Caps, sid: SessionId, verdict: Option<RoomId>, at: int): seq<Op> {
    match verdict
    case None => []
    case Some(room) =>
      if HasPlace(g, caps, room) then [JoinOp(sid, room, at), FetchOp(room, at)] else [JoinOp(sid, room, at)]
  }

  /** A clip with a new id is noted and stored, a note is noted, and asking for the clip looks for it. */
  ghost function FrameOps(g: Registry, room: RoomId, message: Message, at: int): seq<Op> {
    match message
    case Clip(true, msg, frame) => if Known(g, room, msg) then [] else [NoteOp(room, msg), RetainOp(room, frame, msg, at)]
    case Note(true, msg) => [NoteOp(room, msg)]
    case FetchLast => [FetchOp(room, at)]
    case _ => []
  }

  /** The operations of the registry that an event comes down to. */
  ghost function OpsOf(s: Relay, cfg: Settings, e: Event): seq<Op> {
    match e
    case Received(sid, message, at) =>
      if Listens(s, sid, Challenged) && message.Auth? then ProofOps(s.registry, cfg.caps, sid, message.verdict, at)
      else if Listens(s, sid, Ready) then FrameOps(s.registry, s.sessions[sid].roomId, message, at)
      else []
    case Gone(sid, at) =>
      if sid in s.sessions && s.sessions[sid].phase == Ready then [LeaveOp(sid, s.sessions[sid].roomId, at)] else []
    case Swept(at) => [SweepOp(at)]
    case _ => []
  }

  /** The registry after more operations. */
  ghost function Applied(g: Registry, caps: Caps, ops: seq<Op>): (after: Registry)
    requires RoomRuns.Sound(g, caps)
    ensures RoomRuns.Sound(after, caps)
  {
    if ops == [] then g
    else
      var before := Applied(g, caps, ops[..|ops| - 1]);
      ApplyKeeps(before, caps, ops[|ops| - 1]);
      Apply(before, caps, ops[|ops| - 1])
  }

  lemma AppliedNone(g: Registry, caps: Caps)
    requires RoomRuns.Sound(g, caps)
    ensures Applied(g, caps, []) == g
  {
  }

  lemma AppliedOne(g: Registry, caps: Caps, op: Op)
    requires RoomRuns.Sound(g, caps)
    ensures Applied(g, caps, [op]) == Apply(g, caps, op)
  {
    assert [op][..0] == [];
  }

  lemma AppliedTwo(g: Registry, caps: Caps, first: Op, second: Op)
    requires RoomRuns.Sound(g, caps)
    ensures RoomRuns.Sound(Apply(g, caps, first), caps)
    ensures Applied(g, caps, [first, second]) == Apply(Apply(g, caps, first), caps, second)
  {
    ApplyKeeps(g, caps, first);
    AppliedOne(g, caps, first);
    assert [first, second][..1] == [first];
  }

  lemma {:induction false} AppliedMore(caps: Caps, ops: seq<Op>, more: seq<Op>)
    ensures AfterOps(caps, ops + more) == Applied(AfterOps(caps, ops), caps, more)
  {
    if more == [] {
      assert ops + more == ops;
    } else {
      var init := more[..|more| - 1];
      AppliedMore(caps, ops, init);
      assert (ops + more)[..|ops + more| - 1] == ops + init;
    }
  }

  lemma JoinedExactlyWhen(g: Registry, caps: Caps, sid: SessionId, room: RoomId, at: int)
    requires RoomRuns.Sound(g, caps)
    ensures Join(g, caps, sid, room, at).1.Joined? <==> HasPlace(g, caps, room)
  {
    JoinMeans(g, caps, sid, room, at);
  }

  lemma AuthenticatedRegistry(s: Relay, cfg: Settings, sid: SessionId, room: RoomId, at: int)
    requires Inv(s, cfg) && sid in s.sessions
    ensures var joined := Apply(s.registry, cfg.caps, JoinOp(sid, room, at));
            && RoomRuns.Sound(joined, cfg.caps)
            && Authenticate(s, cfg, sid, Some(room), at).registry
               == if HasPlace(s.registry, cfg.caps, room) then Apply(joined, cfg.caps, FetchOp(room, at)) else joined
  {
    JoinedExactlyWhen(s.registry, cfg.caps, sid, room, at);
    ApplyKeeps(s.registry, cfg.caps, JoinOp(sid, room, at));
  }

  lemma ProofIsItsOps(s: Relay, cfg: Settings, sid: SessionId, verdict: Option<RoomId>, at: int)
    requires Inv(s, cfg) && sid in s.sessions
    ensures Authenticate(s, cfg, sid, verdict, at).registry
            == Applied(s.registry, cfg.caps, ProofOps(s.registry, cfg.caps, sid, verdict, at))
  {
    match verdict
    case None => AppliedNone(s.registry, cfg.caps);
    case Some(room) =>
      AuthenticatedRegistry(s, cfg, sid, room, at);
      AppliedOne(s.registry, cfg.caps, JoinOp(sid, room, at));
      AppliedTwo(s.registry, cfg.caps, JoinOp(sid, room, at), FetchOp(room, at));
  }

  lemma ClipIsItsOps(s: Relay, cfg: Settings, sid: SessionId, msg: MsgId, frame: Frame, at: int)
    requires Inv(s, cfg) && sid in s.sessions
    ensures var room := s.sessions[sid].roomId;
            Forward(s, cfg, sid, msg, frame, at).registry
            == Applied(s.registry, cfg.caps, FrameOps(s.registry, room, Clip(true, msg, frame), at))
  {
    var room := s.sessions[sid].roomId;
    if Known(s.registry, room, msg) {
      AppliedNone(s.registry, cfg.caps);
    } else {
      AppliedTwo(s.registry, cfg.caps, NoteOp(room, msg), RetainOp(room, frame, msg, at));
    }
  }

  lemma FrameIsItsOps(s: Relay, cfg: Settings, sid: SessionId, message: Message, at: int)
    requires Inv(s, cfg) && Listens(s, sid, Ready)
    ensures Receive(s, cfg, sid, message, at).registry
            == Applied(s.registry, cfg.caps, FrameOps(s.registry, s.sessions[sid].roomId, message, at))
  {
    var room := s.sessions[sid].roomId;
    AppliedNone(s.registry, cfg.caps);
    match message
    case Clip(fits, msg, frame) => ClipIsItsOps(s, cfg, sid, msg, frame, at);
    case Note(fits, msg) => AppliedOne(s.registry, cfg.caps, NoteOp(room, msg));
    case FetchLast => AppliedOne(s.registry, cfg.caps, FetchOp(room, at));
    case _ =>
  }

  lemma ReceiveIsItsOps(s: Relay, cfg: Settings, sid: SessionId, message: Message, at: int)
    requires Inv(s, cfg)
    ensures Receive(s, cfg, sid, message, at).registry
            == Applied(s.registry, cfg.caps, OpsOf(s, cfg, Received(sid, message, at)))
  {
    if Listens(s, sid, Challenged) && message.Auth? {
      ProofIsItsOps(s, cfg, sid, message.verdict, at);
    } else if Listens(s, sid, Ready) {
      FrameIsItsOps(s, cfg, sid, message, at);
    } else {
      AppliedNone(s.registry, cfg.caps);
    }
  }

  lemma StepIsItsOps(s: Relay, cfg: Settings, e: Event)
    requires Inv(s, cfg)
    ensures Step(s, cfg, e).registry == Applied(s.registry, cfg.caps, OpsOf(s, cfg, e))
  {
    AppliedNone(s.registry, cfg.caps);
    match e
    case Received(sid, message, at) => ReceiveIsItsOps(s, cfg, sid, message, at);
    case Gone(sid, at) =>
      if sid in s.sessions {
        AppliedOne(s.registry, cfg.caps, LeaveOp(sid, s.sessions[sid].roomId, at));
      }
    case Swept(at) => AppliedOne(s.registry, cfg.caps, SweepOp(at));
    case _ =>
  }

  /** All the operations a run of the relay comes down to. */
  ghost function Done(cfg: Settings, events: seq<Event>): seq<Op> {
    if events == [] then []
    else
      var init := events[..|events| - 1];
      Done(cfg, init) + OpsOf(After(cfg, init), cfg, events[|events| - 1])
  }

  /** Over every run, the registry has done exactly what the events ask of it, and nothing else. */
  lemma {:induction false} RegistryDoesWhatIsAsked(cfg: Settings, events: seq<Event>)
    ensures After(cfg, events).registry == AfterOps(cfg.caps, Done(cfg, events))
  {
    if events != [] {
      var init, e := events[..|events| - 1], events[|events| - 1];
      RegistryDoesWhatIsAsked(cfg, init);
      StepIsItsOps(After(cfg, init), cfg, e);
      AppliedMore(cfg.caps, Done(cfg, init), OpsOf(After(cfg, init), cfg, e));
    }
  }

  // ------------------------------------------------------------------ which clip a room holds

  /** A clip taken in that is small enough to be held for whoever comes later. */
  predicate Stores(s: Relay, cfg: Settings, e: Event) {
    TakenIn(s, e) && |e.message.frame| <= cfg.caps.retainMaxBytes
  }

  /** Somebody comes into this room or asks for its clip, or everything is swept. */
  ghost predicate LooksInto(s: Relay, cfg: Settings, e: Event, id: RoomId) {
    match e
    case Received(sid, message, _) =>
      Proves(s, cfg, e, sid, id) || (Listens(s, sid, Ready) && message.FetchLast? && s.sessions[sid].roomId == id)
    case Swept(_) => true
    case _ => false
  }

  /** The clip an event leaves in a room that is still there, given what the room held. */
  ghost function NextClip(s: Relay, cfg: Settings, e: Event, id: RoomId, was: Option<Retained>): Option<Retained> {
    if Stores(s, cfg, e) then
      if s.sessions[e.sid].roomId == id then Some(Retained(e.message.frame, e.at, e.message.msg))
      else if MakesWay(s.registry, cfg.caps, s.sessions[e.sid].roomId, |e.message.frame|, id) then None
      else was
    else if LooksInto(s, cfg, e, id) && TooOld(was, cfg.caps, e.at) then None
    else was
  }

  lemma OneOpHolds(g: Registry, caps: Caps, op: Op, id: RoomId)
    requires RoomRuns.Sound(g, caps) && id in Applied(g, caps, [op]).rooms
    ensures ClipOf(Applied(g, caps, [op]), id) == NextHeld(g, caps, op, id, ClipOf(g, id))
  {
    AppliedOne(g, caps, op);
    ApplyHolds(g, caps, op, id);
  }

  lemma SecondHolds(g: Registry, caps: Caps, second: Op, id: RoomId, was: Option<Retained>)
    requires RoomRuns.Sound(g, caps) && (second.FetchOp? || second.RetainOp?) && id in Apply(g, caps, second).rooms
    requires id in g.rooms ==> ClipOf(g, id) == was
    ensures ClipOf(Apply(g, caps, second), id) == NextHeld(g, caps, second, id, was)
    ensures second.FetchOp? ==>
              ClipOf(Apply(g, caps, second), id) == if id == second.id && TooOld(was, caps, second.at) then None else was
  {
    RoomsAfter(g, caps, second, id);
    ApplyHolds(g, caps, second, id);
  }

  lemma TwoOpsHold(g: Registry, caps: Caps, first: Op, second: Op, id: RoomId)
    requires RoomRuns.Sound(g, caps) && (second.FetchOp? || second.RetainOp?)
    requires id in Applied(g, caps, [first, second]).rooms
    ensures var between, was := Apply(g, caps, first), NextHeld(g, caps, first, id, ClipOf(g, id));
            && RoomRuns.Sound(between, caps)
            && ClipOf(Applied(g, caps, [first, second]), id) == NextHeld(between, caps, second, id, was)
            && (second.FetchOp? ==>
                  ClipOf(Applied(g, caps, [first, second]), id)
                  == if id == second.id && TooOld(was, caps, second.at) then None else was)
  {
    AppliedTwo(g, caps, first, second);
    ApplyHolds(g, caps, first, id);
    SecondHolds(Apply(g, caps, first), caps, second, id, NextHeld(g, caps, first, id, ClipOf(g, id)));
  }

  /** Two registries whose rooms stand in the same order, as active as each other and holding the same. */
  ghost predicate SameClips(a: Registry, b: Registry) {
    a.order == b.order && a.rooms.Keys == b.rooms.Keys
    && forall id | id in a.rooms ::
         a.rooms[id].lastActiveMs == b.rooms[id].lastActiveMs && a.rooms[id].retained == b.rooms[id].retained
  }

  lemma NotingKeepsClips(g: Registry, caps: Caps, room: RoomId, msg: MsgId)
    ensures SameClips(NoteMsg(g, caps, room, msg).0, g)
  {
  }

  lemma SameClipsMakeWay(a: Registry, b: Registry, caps: Caps, room: RoomId, bytes: nat, id: RoomId)
    requires SameClips(a, b)
    ensures MakesWay(a, caps, room, bytes, id) <==> MakesWay(b, caps, room, bytes, id)
  {
    if id in a.rooms {
      assert AsRecent(a, room, id) == AsRecent(b, room, id);
      SameBytes(a.rooms, b.rooms, AsRecent(a, room, id));
    }
  }

  lemma NoteThenRetain(g: Registry, caps: Caps, room: RoomId, msg: MsgId, frame: Frame, at: int, id: RoomId)
    requires RoomRuns.Sound(g, caps) && room in g.rooms
    requires id in Applied(g, caps, [NoteOp(room, msg), RetainOp(room, frame, msg, at)]).rooms
    ensures ClipOf(Applied(g, caps, [NoteOp(room, msg), RetainOp(room, frame, msg, at)]), id)
            == NextHeld(g, caps, RetainOp(room, frame, msg, at), id, ClipOf(g, id))
  {
    TwoOpsHold(g, caps, NoteOp(room, msg), RetainOp(room, frame, msg, at), id);
    NotingKeepsClips(g, caps, room, msg);
    SameClipsMakeWay(NoteMsg(g, caps, room, msg).0, g, caps, room, |frame|, id);
  }

  /** The room of a ready session is there. */
  lemma ReadyRoom(s: Relay, cfg: Settings, sid: SessionId)
    requires Inv(s, cfg) && sid in s.sessions && s.sessions[sid].phase == Ready
    ensures s.sessions[sid].roomId in s.registry.rooms
  {
    var room := s.sessions[sid].roomId;
    assert sid in ReadyIn(s.sessions, room);
    assert Members(s.registry, room) == ReadyIn(s.sessions, room);
  }

  lemma ClipHolds(s: Relay, cfg: Settings, e: Event, id: RoomId)
    requires Inv(s, cfg) && TakenIn(s, e) && id in Applied(s.registry, cfg.caps, OpsOf(s, cfg, e)).rooms
    ensures ClipOf(Applied(s.registry, cfg.caps, OpsOf(s, cfg, e)), id) == NextClip(s, cfg, e, id, ClipOf(s.registry, id))
  {
    var room, msg, frame := s.sessions[e.sid].roomId, e.message.msg, e.message.frame;
    ReadyRoom(s, cfg, e.sid);
    assert OpsOf(s, cfg, e) == [NoteOp(room, msg), RetainOp(room, frame, msg, e.at)];
    NoteThenRetain(s.registry, cfg.caps, room, msg, frame, e.at, id);
  }

  lemma ProofHolds(s: Relay, cfg: Settings, sid: SessionId, room: RoomId, at: int, id: RoomId)
    requires Inv(s, cfg) && Listens(s, sid, Challenged)
    requires var e := Received(sid, Auth(Some(room)), at);
             id in Applied(s.registry, cfg.caps, OpsOf(s, cfg, e)).rooms
    ensures var e := Received(sid, Auth(Some(room)), at);
            ClipOf(Applied(s.registry, cfg.caps, OpsOf(s, cfg, e)), id) == NextClip(s, cfg, e, id, ClipOf(s.registry, id))
  {
    var join, fetch := JoinOp(sid, room, at), FetchOp(room, at);
    if HasPlace(s.registry, cfg.caps, room) {
      TwoOpsHold(s.registry, cfg.caps, join, fetch, id);
    } else {
      OneOpHolds(s.registry, cfg.caps, join, id);
    }
  }

  lemma ReadyFrameHolds(s: Relay, cfg: Settings, sid: SessionId, message: Message, at: int, id: RoomId)
    requires Inv(s, cfg) && Listens(s, sid, Ready)
    requires var e := Received(sid, message, at);
             id in Applied(s.registry, cfg.caps, OpsOf(s, cfg, e)).rooms
    ensures var e := Received(sid, message, at);
            ClipOf(Applied(s.registry, cfg.caps, OpsOf(s, cfg, e)), id) == NextClip(s, cfg, e, id, ClipOf(s.registry, id))
  {
    var e, room := Received(sid, message, at), s.sessions[sid].roomId;
    if TakenIn(s, e) {
      ClipHolds(s, cfg, e, id);
    } else if message.FetchLast? {
      OneOpHolds(s.registry, cfg.caps, FetchOp(room, at), id);
    } else if message.Note? && message.fits {
      OneOpHolds(s.registry, cfg.caps, NoteOp(room, message.msg), id);
    } else {
      AppliedNone(s.registry, cfg.caps);
    }
  }

  lemma StepHolds(s: Relay, cfg: Settings, e: Event, id: RoomId)
    requires Inv(s, cfg) && id in Applied(s.registry, cfg.caps, OpsOf(s, cfg, e)).rooms
    ensures ClipOf(Applied(s.registry, cfg.caps, OpsOf(s, cfg, e)), id) == NextClip(s, cfg, e, id, ClipOf(s.registry, id))
  {
    AppliedNone(s.registry, cfg.caps);
    match e
    case Received(sid, message, at) =>
      if Listens(s, sid, Challenged) && message.Auth? && message.verdict.Some? {
        ProofHolds(s, cfg, sid, message.verdict.value, at, id);
      } else if Listens(s, sid, Ready) {
        ReadyFrameHolds(s, cfg, sid, message, at, id);
      }
    case Gone(sid, at) =>
      if sid in s.sessions && s.sessions[sid].phase == Ready {
        OneOpHolds(s.registry, cfg.caps, LeaveOp(sid, s.sessions[sid].roomId, at), id);
      }
    case Swept(at) => OneOpHolds(s.registry, cfg.caps, SweepOp(at), id);
    case _ =>
  }

  /** The clip last taken in for a room that is still there, unless it was lost since. */
  ghost function HeldFor(cfg: Settings, events: seq<Event>, id: RoomId): Option<Retained> {
    if events == [] || id !in After(cfg, events).registry.rooms then None
    else
      var init := events[..|events| - 1];
      NextClip(After(cfg, init), cfg, events[|events| - 1], id, HeldFor(cfg, init, id))
  }

  /**
   * Over every run, a room holds the newest clip of those taken in there that are small enough, until a
   * clip of another room needs its place, or somebody comes, asks or sweeps when it has expired.
   */
  lemma {:induction false} RoomHoldsExactly(cfg: Settings, events: seq<Event>, id: RoomId)
    ensures ClipOf(After(cfg, events).registry, id) == HeldFor(cfg, events, id)
  {
    if events != [] {
      var init, e := events[..|events| - 1], events[|events| - 1];
      RoomHoldsExactly(cfg, init, id);
      StepIsItsOps(After(cfg, init), cfg, e);
      if id in After(cfg, events).registry.rooms {
        StepHolds(After(cfg, init), cfg, e, id);
      }
    }
  }

  /** Right after a clip was taken in, its room holds exactly that frame, under its id and with its time. */
  lemma TakenInIsHeld(cfg: Settings, events: seq<Event>, e: Event)
    requires Stores(After(cfg, events), cfg, e)
    ensures ClipOf(After(cfg, events + [e]).registry, After(cfg, events).sessions[e.sid].roomId)
            == Some(Retained(e.message.frame, e.at, e.message.msg))
  {
    var s, all := After(cfg, events), events + [e];
    var room := s.sessions[e.sid].roomId;
    assert all[..|all| - 1] == events;
    RoomHoldsExactly(cfg, all, room);
    ReadyRoom(s, cfg, e.sid);
    TakenInKeepsRooms(s, cfg, e, room);
  }

  lemma TakenInKeepsRooms(s: Relay, cfg: Settings, e: Event, id: RoomId)
    requires Inv(s, cfg) && TakenIn(s, e)
    ensures id in Step(s, cfg, e).registry.rooms <==> id in s.registry.rooms
  {
    var room, msg, frame := s.sessions[e.sid].roomId, e.message.msg, e.message.frame;
    StepIsItsOps(s, cfg, e);
    AppliedTwo(s.registry, cfg.caps, NoteOp(room, msg), RetainOp(room, frame, msg, e.at));
    RoomsAfter(s.registry, cfg.caps, NoteOp(room, msg), id);
    RoomsAfter(Apply(s.registry, cfg.caps, NoteOp(room, msg)), cfg.caps, RetainOp(room, frame, msg, e.at), id);
  }

  /** In every reachable state, a clip whose id is known changes nothing at all. */
  lemma DuplicateChangesNothing(s: Relay, cfg: Settings, e: Event)
    requires Inv(s, cfg) && e.Received? && Listens(s, e.sid, Ready) && e.message.Clip? && e.message.fits
    requires Known(s.registry, s.sessions[e.sid].roomId, e.message.msg)
    ensures Step(s, cfg, e) == s
  {
  }

  /** The last clip taken in for a room that was small enough to be held. */
  ghost function NewestFor(cfg: Settings, events: seq<Event>, id: RoomId): Option<Retained> {
    if events == [] then None
    else
      var init, e := events[..|events| - 1], events[|events| - 1];
      var s := After(cfg, init);
      if Stores(s, cfg, e) && s.sessions[e.sid].roomId == id then Some(Retained(e.message.frame, e.at, e.message.msg))
      else NewestFor(cfg, init, id)
  }

  lemma {:induction false} HeldForIsNewest(cfg: Settings, events: seq<Event>, id: RoomId)
    ensures HeldFor(cfg, events, id).Some? ==> HeldFor(cfg, events, id) == NewestFor(cfg, events, id)
  {
    if events != [] {
      HeldForIsNewest(cfg, events[..|events| - 1], id);
    }
  }

  /** Over every run, the clip a room holds is the newest one taken in there. */
  lemma HeldIsTheNewest(cfg: Settings, events: seq<Event>, id: RoomId)
    ensures var held := ClipOf(After(cfg, events).registry, id); held.Some? ==> held == NewestFor(cfg, events, id)
  {
    RoomHoldsExactly(cfg, events, id);
    HeldForIsNewest(cfg, events, id);
  }

  /** Over every run, an id counts as known in a room if and only if it is among the last accepted there. */
  lemma KnownExactlyWhenAccepted(cfg: Settings, events: seq<Event>, id: RoomId, msg: MsgId)
    requires id in After(cfg, events).registry.rooms
    ensures Known(After(cfg, events).registry, id, msg)
            <==> msg in LastOf(HistoryOf(cfg.caps, Done(cfg, events), id).accepted, cfg.caps.dedupWindow)
  {
    RegistryDoesWhatIsAsked(cfg, events);
    DuplicateMeansRecentlyAccepted(cfg.caps, Done(cfg, events), id, msg);
  }

  /** Over every run, asking finds a clip if and only if it is the one the room holds and it has not expired. */
  lemma AskingFindsExactly(cfg: Settings, events: seq<Event>, sid: SessionId, at: int, clip: Retained)
    requires sid in After(cfg, events).sessions && After(cfg, events).sessions[sid].phase == Ready
    ensures var s := After(cfg, events);
            var room := s.sessions[sid].roomId;
            Fetch(s.registry, cfg.caps, room, at).1 == Some(clip)
            <==> HeldFor(cfg, events, room) == Some(clip) && at - clip.storedAtMs <= cfg.caps.retainTtlMs
  {
    RoomHoldsExactly(cfg, events, After(cfg, events).sessions[sid].roomId);
  }

  /**
   * Over every run, a session is told anything exactly when it gets in, and then how many are in the
   * room with it, and of a clip exactly when the room holds one that has not expired.
   */
  lemma ToldExactly(cfg: Settings, events: seq<Event>, sid: SessionId, room: RoomId, at: int)
    requires sid in After(cfg, events).sessions
    ensures var s := After(cfg, events);
            var held := HeldFor(cfg, events, room);
            Told(s, cfg, sid, Some(room), at)
            == if !HasPlace(s.registry, cfg.caps, room) then None
               else Some(Welcome(|Members(s.registry, room) + {sid}|,
                                 if held.Some? && !TooOld(held, cfg.caps, at) then Some(held.value.storedAtMs) else None))
  {
    var s := After(cfg, events);
    RoomHoldsExactly(cfg, events, room);
    JoinMeans(s.registry, cfg.caps, sid, room, at);
    JoinHolds(s.registry, cfg.caps, sid, room, at, room);
    RoomsAfterJoin(s.registry, cfg.caps, sid, room, at, room);
  }

  // ------------------------------------------------------------------ what the limiter is asked to do

  /** The event of the address limiter that an event comes down to. */
  function AskedBy(s: Relay, cfg: Settings, e: Event): seq<IpLimits.IpEvent> {
    match e
    case Arrived(sid, ipKey, crowded, at) => if crowded || sid in s.sessions then [] else [IpLimits.Arriving(ipKey, at)]
    case Gone(sid, at) => if sid in s.sessions then [IpLimits.Leaving(s.sessions[sid].ipKey, at)] else []
    case Swept(at) => [IpLimits.Sweeping(at, cfg.ipIdleMs)]
    case _ => []
  }

  ghost function Asked(cfg: Settings, events: seq<Event>): seq<IpLimits.IpEvent> {
    if events == [] then []
    else
      var init := events[..|events| - 1];
      Asked(cfg, init) + AskedBy(After(cfg, init), cfg, events[|events| - 1])
  }

  lemma StepAsks(s: Relay, cfg: Settings, e: Event)
    requires Inv(s, cfg)
    ensures var asked := AskedBy(s, cfg, e);
            Step(s, cfg, e).entries == if asked == [] then s.entries else IpLimits.Step(s.entries, cfg.ip, asked[0])
  {
  }

  /** Over every run, the address limiter was asked exactly for the connections that came, went and were swept. */
  lemma {:induction false} LimiterDoesWhatIsAsked(cfg: Settings, events: seq<Event>)
    ensures After(cfg, events).entries == IpLimits.After(cfg.ip, Asked(cfg, events), true)
  {
    if events != [] {
      var init, e := events[..|events| - 1], events[|events| - 1];
      LimiterDoesWhatIsAsked(cfg, init);
      StepAsks(After(cfg, init), cfg, e);
      var asked := AskedBy(After(cfg, init), cfg, e);
      if asked == [] {
        assert Asked(cfg, init) + asked == Asked(cfg, init);
      } else {
        var all := Asked(cfg, init) + asked;
        assert all[..|all| - 1] == Asked(cfg, init);
      }
    }
  }
}
