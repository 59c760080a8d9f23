/**
 * The relay's session state machine, server/src/server.ts: sessions come and go, prove they belong
 * to a room, and are counted against their address, while rooms and addresses are swept.
 *
 * What parsing, validation, signatures, rate limits and quotas decide arrives as part of an event.
 */
module Relay {
  import opened Options
  import opened Rooms
  import opened IpLimits
  import RoomRuns

  type SessionId = ConnId

  datatype Phase = Connected | Challenged | Ready

  /** `open` is whether the socket's ready state is still OPEN: a close has not been decided. */
  datatype Session = Session(phase: Phase, roomId: RoomId, ipKey: Address, joined: bool, open: bool)

  type Sessions = map<SessionId, Session>

  datatype Relay = Relay(sessions: Sessions, registry: Registry, entries: IpEntries)

  datatype Settings = Settings(caps: Caps, ip: IpPolicy, ipIdleMs: int)

  /** What a frame turned out to be. `fits` is what validation, the room check and the quota decided. */
  datatype Message =
    | Refused(closes: bool)
    | Hello(fits: bool)
    | Auth(verdict: Option<RoomId>)
    | Clip(fits: bool, msg: MsgId, frame: Frame)
    | Note(fits: bool, msg: MsgId)
    | FetchLast
    | Other

  /** What a session that joined is told: how many are in the room, and when the clip it holds was stored. */
  datatype Welcome = Welcome(peers: nat, storedAtMs: Option<int>)

  const NOWHERE: Relay := Relay(map[], EMPTY, map[])

  // ------------------------------------------------------------------ handlers as functions of the state

  function Update(s: Relay, sid: SessionId, session: Session): Relay {
    s.(sessions := s.sessions[sid := session])
  }

  function Close(s: Relay, sid: SessionId): Relay
    requires sid in s.sessions
  {
    Update(s, sid, s.sessions[sid].(open := false))
  }

  function Connect(s: Relay, cfg: Settings, sid: SessionId, ipKey: Address, crowded: bool, nowMs: int): Relay {
    if crowded || sid in s.sessions then s
    else
      var (entries, answer) := Admit(s.entries, cfg.ip, ipKey, nowMs);
      var counted := s.(entries := entries);
      if answer != Ok then counted
      else Update(counted, sid, Session(Connected, "", ipKey, false, true))
  }

  /** The session once its join was tried: ready in the room, or on its way out. */
  function TryJoin(s: Relay, cfg: Settings, sid: SessionId, room: RoomId, nowMs: int): (Relay, bool)
    requires sid in s.sessions && Listed(s.registry)
  {
    var (registry, result) := Join(s.registry, cfg.caps, sid, room, nowMs);
    (Settle(s, registry, sid, room, result.Joined?), result.Joined?)
  }

  function Settle(s: Relay, registry: Registry, sid: SessionId, room: RoomId, joined: bool): Relay
    requires sid in s.sessions
  {
    var session := s.sessions[sid].(roomId := room);
    Update(s.(registry := registry), sid,
           if joined then session.(joined := true, phase := Ready) else session.(open := false))
  }

  function Authenticate(s: Relay, cfg: Settings, sid: SessionId, verdict: Option<RoomId>, nowMs: int): Relay
    requires sid in s.sessions && Listed(s.registry)
  {
    if verdict.None? then Close(s, sid)
    else
      var (tried, joined) := TryJoin(s, cfg, sid, verdict.value, nowMs);
      if joined then tried.(registry := Fetch(tried.registry, cfg.caps, verdict.value, nowMs).0) else tried
  }

  /** What a session is told once its proof was looked at, unless its socket is closed instead. */
  function Told(s: Relay, cfg: Settings, sid: SessionId, verdict: Option<RoomId>, nowMs: int): Option<Welcome>
    requires sid in s.sessions && Listed(s.registry)
  {
    if verdict.None? then None
    else
      var (registry, result) := Join(s.registry, cfg.caps, sid, verdict.value, nowMs);
      if !result.Joined? then None
      else
        match Fetch(registry, cfg.caps, verdict.value, nowMs).1
        case None => Some(Welcome(result.peers, None))
        case Some(clip) => Some(Welcome(result.peers, Some(clip.storedAtMs)))
  }

  function Forward(s: Relay, cfg: Settings, sid: SessionId, msg: MsgId, frame: Frame, nowMs: int): Relay
    requires sid in s.sessions && Listed(s.registry)
  {
    var id := s.sessions[sid].roomId;
    var (noted, known) := NoteMsg(s.registry, cfg.caps, id, msg);
    if known then s.(registry := noted)
    else s.(registry := Retain(noted, cfg.caps, id, frame, msg, nowMs).0)
  }

  function Receive(s: Relay, cfg: Settings, sid: SessionId, message: Message, nowMs: int): Relay
    requires Listed(s.registry)
  {
    if sid !in s.sessions || !s.sessions[sid].open then s
    else if message.Refused? then if message.closes then Close(s, sid) else s
    else
      var id := s.sessions[sid].roomId;
      match s.sessions[sid].phase
      case Connected =>
        if message.Hello? && message.fits then Update(s, sid, s.sessions[sid].(phase := Challenged))
        else Close(s, sid)
      case Challenged =>
        if message.Auth? then Authenticate(s, cfg, sid, message.verdict, nowMs) else Close(s, sid)
      case Ready =>
        match message
        case Clip(fits, msg, frame) => if fits then Forward(s, cfg, sid, msg, frame, nowMs) else Close(s, sid)
        case Note(fits, msg) =>
          if fits then s.(registry := NoteMsg(s.registry, cfg.caps, id, msg).0) else Close(s, sid)
        case FetchLast => s.(registry := Fetch(s.registry, cfg.caps, id, nowMs).0)
        case Other => s
        case _ => Close(s, sid)
  }

  function Disconnect(s: Relay, sid: SessionId, nowMs: int): Relay {
    if sid !in s.sessions then s
    else
      var session := s.sessions[sid];
      Relay(s.sessions - {sid},
            if session.joined then Leave(s.registry, sid, session.roomId, nowMs) else s.registry,
            Release(s.entries, session.ipKey, nowMs))
  }

  function SweepRelay(s: Relay, cfg: Settings, nowMs: int): Relay
    requires Listed(s.registry)
  {
    s.(registry := SweepRooms(s.registry, cfg.caps, s.registry.order, nowMs),
       entries := SweepAll(s.entries, cfg.ip, nowMs, cfg.ipIdleMs))
  }

  function ReadyIn(sessions: Sessions, id: RoomId): set<SessionId> {
    set sid | sid in sessions && sessions[sid].phase == Ready && sessions[sid].roomId == id
  }

  /** The ready sessions in a room whose socket is still open: whoever a clip can be handed to. */
  function Reachable(sessions: Sessions, id: RoomId): set<SessionId> {
    set sid | sid in ReadyIn(sessions, id) && sessions[sid].open
  }

  /** Whether the event is a clip that the relay takes in: from a ready session, and not seen before in its room. */
  predicate TakenIn(s: Relay, e: Event) {
    e.Received? && e.sid in s.sessions && s.sessions[e.sid].open && s.sessions[e.sid].phase == Ready
    && e.message.Clip? && e.message.fits && !Known(s.registry, s.sessions[e.sid].roomId, e.message.msg)
  }

  /** Who a clip is handed to: nobody when its id was seen before. */
  function Recipients(s: Relay, cfg: Settings, sid: SessionId, msg: MsgId): set<SessionId>
    requires sid in s.sessions
  {
    var id := s.sessions[sid].roomId;
    if NoteMsg(s.registry, cfg.caps, id, msg).1 then {} else Reachable(s.sessions, id) - {sid}
  }

  // ------------------------------------------------------------------ the relay object

  class RelayServer {
    var sessions: Sessions
    const registry: RoomRegistry
    const ipLimiter: IpLimiter
    const cfg: Settings

    ghost function State(): Relay
      reads this, registry, ipLimiter
    {
      Relay(sessions, registry.State(), ipLimiter.entries)
    }

    ghost predicate Valid()
      reads this, registry, ipLimiter
    {
      registry.caps == cfg.caps && ipLimiter.policy == cfg.ip && Listed(registry.State())
      && forall sid | sid in sessions && sessions[sid].joined :: sessions[sid].phase == Ready
    }

    constructor (cfg: Settings)
      ensures Valid() && fresh(registry) && fresh(ipLimiter)
      ensures this.cfg == cfg && State() == NOWHERE
    {
      this.cfg := cfg;
      sessions := map[];
      registry := new RoomRegistry(cfg.caps);
      ipLimiter := new IpLimiter(cfg.ip);
    }

    method OnConnection(sid: SessionId, ipKey: Address, crowded: bool, nowMs: int)
      requires Valid() && sid !in sessions
      modifies this, ipLimiter
      ensures State() == Connect(old(State()), cfg, sid, ipKey, crowded, nowMs)
    {
      if crowded {
        return;
      }
      var answer := ipLimiter.TryAdmit(ipKey, nowMs);
      if answer != Ok {
        return;
      }
      sessions := sessions[sid := Session(Connected, "", ipKey, false, true)];
    }

    method CloseSocket(sid: SessionId)
      requires sid in sessions
      modifies this
      ensures State() == Close(old(State()), sid)
    {
      sessions := sessions[sid := sessions[sid].(open := false)];
    }

    method HandleAuth(sid: SessionId, verdict: Option<RoomId>, nowMs: int) returns (told: Option<Welcome>)
      requires Valid() && sid in sessions
      modifies this, registry
      ensures State() == Authenticate(old(State()), cfg, sid, verdict, nowMs)
      ensures told == Told(old(State()), cfg, sid, verdict, nowMs)
    {
      if verdict.None? {
        CloseSocket(sid);
        return None;
      }
      var result := JoinSession(sid, verdict.value, nowMs);
      if !result.Joined? {
        return None;
      }
      var retained := registry.RetainedFor(verdict.value, nowMs);
      return Some(Welcome(result.peers, if retained.Some? then Some(retained.value.storedAtMs) else None));
    }

    /** The part of the handler up to the answer: either the session is ready or its socket is closed. */
    method JoinSession(sid: SessionId, room: RoomId, nowMs: int) returns (result: JoinResult)
      requires Valid() && sid in sessions
      modifies this, registry
      ensures (State(), result.Joined?) == TryJoin(old(State()), cfg, sid, room, nowMs)
      ensures (registry.State(), result) == Join(old(registry.State()), cfg.caps, sid, room, nowMs)
    {
      sessions := sessions[sid := sessions[sid].(roomId := room)];
      result := registry.JoinRoom(sid, room, nowMs);
      if !result.Joined? {
        CloseSocket(sid);
        assert sessions == old(sessions)[sid := sessions[sid]];
        return;
      }
      sessions := sessions[sid := sessions[sid].(joined := true)];
      sessions := sessions[sid := sessions[sid].(phase := Ready)];
      assert sessions == old(sessions)[sid := sessions[sid]];
    }

    /** Answers who the clip is delivered to. */
    method HandleClip(sid: SessionId, msg: MsgId, frame: Frame, nowMs: int) returns (recipients: set<SessionId>)
      requires Valid() && sid in sessions
      modifies registry
      ensures State() == Forward(old(State()), cfg, sid, msg, frame, nowMs)
      ensures recipients == Recipients(old(State()), cfg, sid, msg)
    {
      recipients := {};
      var id := sessions[sid].roomId;
      var known := registry.IsDuplicate(id, msg);
      if known {
        return;
      }
      var unseen := sessions.Keys;
      while unseen != {}
        invariant unseen <= sessions.Keys
        invariant recipients == Reachable(sessions, id) - {sid} - unseen
      {
        var peer :| peer in unseen;
        unseen := unseen - {peer};
        if peer == sid {
          continue;
        }
        if sessions[peer].phase != Ready || sessions[peer].roomId != id {
          continue;
        }
        // A socket on its way out takes nothing.
        if !sessions[peer].open {
          continue;
        }
        recipients := recipients + {peer};
      }
      var _ := registry.RetainClip(id, frame, msg, nowMs);
    }

    /** Answers the clip the room holds. A session whose socket is behind does not come this far: its frame is `Refused`. */
    method HandleFetchLast(sid: SessionId, nowMs: int) returns (clip: Option<Retained>)
      requires Valid() && sid in sessions
      modifies registry
      ensures var (after, found) := Fetch(old(registry.State()), cfg.caps, sessions[sid].roomId, nowMs);
              clip == found && State() == old(State()).(registry := after)
    {
      clip := registry.RetainedFor(sessions[sid].roomId, nowMs);
    }

    method OnMessage(sid: SessionId, message: Message, nowMs: int)
      requires Valid() && sid in sessions
      modifies this, registry
      ensures State() == Receive(old(State()), cfg, sid, message, nowMs)
    {
      if !sessions[sid].open {
        return;
      }
      if message.Refused? {
        if message.closes {
          CloseSocket(sid);
        }
        return;
      }
      if sessions[sid].phase == Connected {
        if !message.Hello? || !message.fits {
          CloseSocket(sid);
          return;
        }
        sessions := sessions[sid := sessions[sid].(phase := Challenged)];
        return;
      }
      if sessions[sid].phase == Challenged {
        if !message.Auth? {
          CloseSocket(sid);
          return;
        }
        var _ := HandleAuth(sid, message.verdict, nowMs);
        return;
      }
      if message.Clip? && message.fits {
        var _ := HandleClip(sid, message.msg, message.frame, nowMs);
      } else if message.Note? && message.fits {
        var _ := registry.IsDuplicate(sessions[sid].roomId, message.msg);
      } else if message.FetchLast? {
        var _ := HandleFetchLast(sid, nowMs);
      } else if !message.Other? {
        CloseSocket(sid);
      }
    }

    method OnClose(sid: SessionId, nowMs: int)
      requires Valid() && sid in sessions
      modifies this, registry, ipLimiter
      ensures State() == Disconnect(old(State()), sid, nowMs)
    {
      var session := sessions[sid];
      sessions := sessions - {sid};
      ipLimiter.ReleaseOne(session.ipKey, nowMs);
      if session.joined {
        registry.LeaveRoom(sid, session.roomId, nowMs);
      }
    }

    method OnSweep(nowMs: int)
      requires Valid()
      modifies registry, ipLimiter
      ensures State() == SweepRelay(old(State()), cfg, nowMs)
    {
      var _ := registry.Sweep(nowMs);
      ipLimiter.Sweep(nowMs, cfg.ipIdleMs);
    }
  }

  // ------------------------------------------------------------------ every run

  datatype Event =
    | Arrived(sid: SessionId, ipKey: Address, crowded: bool, at: int)
    | Received(sid: SessionId, message: Message, at: int)
    | Closing(sid: SessionId)
    | Gone(sid: SessionId, at: int)
    | Swept(at: int)

  function Step(s: Relay, cfg: Settings, e: Event): Relay
    requires Listed(s.registry)
  {
    match e
    case Arrived(sid, ipKey, crowded, at) => Connect(s, cfg, sid, ipKey, crowded, at)
    case Received(sid, message, at) => Receive(s, cfg, sid, message, at)
    case Closing(sid) => if sid in s.sessions then Close(s, sid) else s
    case Gone(sid, at) => Disconnect(s, sid, at)
    case Swept(at) => SweepRelay(s, cfg, at)
  }

  function From(sessions: Sessions, key: Address): set<SessionId> {
    set sid | sid in sessions && sessions[sid].ipKey == key
  }

  /** Who is in a room is exactly the ready sessions that named it. */
  ghost predicate SoundSessions(sessions: Sessions, registry: Registry) {
    (forall sid | sid in sessions :: sessions[sid].joined <==> sessions[sid].phase == Ready)
    && forall id :: RoomRuns.Members(registry, id) == ReadyIn(sessions, id)
  }

  /** How many connections an address may hold. */
  function Most(ip: IpPolicy): nat {
    if ip.maxConcurrent > 0 then ip.maxConcurrent else 0
  }

  /** An address is counted for exactly its live admitted sessions, of which there are never too many. */
  ghost predicate SoundCounts(sessions: Sessions, entries: IpEntries, ip: IpPolicy) {
    forall key :: Held(entries, key) == |From(sessions, key)| <= Most(ip)
  }

  ghost predicate Inv(s: Relay, cfg: Settings) {
    RoomRuns.Sound(s.registry, cfg.caps)
    && SoundSessions(s.sessions, s.registry)
    && SoundCounts(s.sessions, s.entries, cfg.ip)
  }

  // ---- what putting or removing a session does to the sets

  lemma ReadyAfterPut(sessions: Sessions, sid: SessionId, session: Session, id: RoomId)
    ensures ReadyIn(sessions[sid := session], id)
            == ReadyIn(sessions, id) - {sid} + if session.phase == Ready && session.roomId == id then {sid} else {}
  {
  }

  lemma FromAfterPut(sessions: Sessions, sid: SessionId, session: Session, key: Address)
    ensures From(sessions[sid := session], key)
            == From(sessions, key) - {sid} + if session.ipKey == key then {sid} else {}
  {
  }

  lemma AfterRemoval(sessions: Sessions, sid: SessionId, id: RoomId, key: Address)
    ensures ReadyIn(sessions - {sid}, id) == ReadyIn(sessions, id) - {sid}
    ensures From(sessions - {sid}, key) == From(sessions, key) - {sid}
  {
  }

  lemma SessionsAfterPut(sessions: Sessions, registry: Registry, sid: SessionId, session: Session, after: Registry)
    requires SoundSessions(sessions, registry) && (session.joined <==> session.phase == Ready)
    requires forall id :: RoomRuns.Members(after, id)
               == RoomRuns.Members(registry, id) - {sid} + if session.phase == Ready && session.roomId == id then {sid} else {}
    ensures SoundSessions(sessions[sid := session], after)
  {
    forall id
      ensures RoomRuns.Members(after, id) == ReadyIn(sessions[sid := session], id)
    {
      ReadyAfterPut(sessions, sid, session, id);
      assert RoomRuns.Members(registry, id) == ReadyIn(sessions, id);
    }
  }

  lemma CountsAfterPut(sessions: Sessions, entries: IpEntries, ip: IpPolicy, sid: SessionId, session: Session)
    requires SoundCounts(sessions, entries, ip) && sid in sessions && session.ipKey == sessions[sid].ipKey
    ensures SoundCounts(sessions[sid := session], entries, ip)
  {
    forall key
      ensures From(sessions[sid := session], key) == From(sessions, key)
    {
      FromAfterPut(sessions, sid, session, key);
    }
  }

  // ---- every handler keeps the invariant

  /** A session that changes neither room nor address. */
  lemma UpdateKeeps(s: Relay, cfg: Settings, sid: SessionId, session: Session)
    requires Inv(s, cfg) && sid in s.sessions
    requires session.ipKey == s.sessions[sid].ipKey && session.joined == s.sessions[sid].joined
    requires session.joined <==> session.phase == Ready
    requires session.joined ==> session.roomId == s.sessions[sid].roomId
    ensures Inv(Update(s, sid, session), cfg)
  {
    CountsAfterPut(s.sessions, s.entries, cfg.ip, sid, session);
    forall id
      ensures sid in RoomRuns.Members(s.registry, id) <==> session.phase == Ready && session.roomId == id
    {
      assert RoomRuns.Members(s.registry, id) == ReadyIn(s.sessions, id);
    }
    SessionsAfterPut(s.sessions, s.registry, sid, session, s.registry);
  }

  /** The registry may change in any way that keeps its members. */
  lemma RegistryKeeps(s: Relay, cfg: Settings, registry: Registry)
    requires Inv(s, cfg) && RoomRuns.Sound(registry, cfg.caps)
    requires forall id :: RoomRuns.Members(registry, id) == RoomRuns.Members(s.registry, id)
    ensures Inv(s.(registry := registry), cfg)
  {
  }

  lemma FetchStepKeeps(s: Relay, cfg: Settings, room: RoomId, nowMs: int)
    requires Inv(s, cfg)
    ensures Inv(s.(registry := Fetch(s.registry, cfg.caps, room, nowMs).0), cfg)
  {
    RoomRuns.FetchKeeps(s.registry, cfg.caps, room, nowMs);
    forall id {
      RoomRuns.FetchMembers(s.registry, cfg.caps, room, nowMs, id);
    }
    RegistryKeeps(s, cfg, Fetch(s.registry, cfg.caps, room, nowMs).0);
  }

  lemma NoteStepKeeps(s: Relay, cfg: Settings, room: RoomId, msg: MsgId)
    requires Inv(s, cfg)
    ensures Inv(s.(registry := NoteMsg(s.registry, cfg.caps, room, msg).0), cfg)
  {
    RoomRuns.NoteKeeps(s.registry, cfg.caps, room, msg);
    forall id {
      RoomRuns.NoteMembers(s.registry, cfg.caps, room, msg, id);
    }
    RegistryKeeps(s, cfg, NoteMsg(s.registry, cfg.caps, room, msg).0);
  }

  lemma RetainStepKeeps(s: Relay, cfg: Settings, room: RoomId, frame: Frame, msg: MsgId, nowMs: int)
    requires Inv(s, cfg)
    ensures Inv(s.(registry := Retain(s.registry, cfg.caps, room, frame, msg, nowMs).0), cfg)
  {
    RoomRuns.RetainKeeps(s.registry, cfg.caps, room, frame, msg, nowMs);
    forall id {
      RoomRuns.RetainMembers(s.registry, cfg.caps, room, frame, msg, nowMs, id);
    }
    RegistryKeeps(s, cfg, Retain(s.registry, cfg.caps, room, frame, msg, nowMs).0);
  }

  lemma OneMoreFrom(sessions: Sessions, sid: SessionId, session: Session, key: Address)
    requires sid !in sessions
    ensures |From(sessions[sid := session], key)| == |From(sessions, key)| + if session.ipKey == key then 1 else 0
  {
    FromAfterPut(sessions, sid, session, key);
    assert sid !in From(sessions, key);
    assert From(sessions, key) - {sid} == From(sessions, key);
  }

  lemma KeyAfterAdmit(sessions: Sessions, entries: IpEntries, ip: IpPolicy, sid: SessionId, session: Session, nowMs: int,
                      key: Address)
    requires sid !in sessions && Held(entries, key) == |From(sessions, key)| <= Most(ip)
    ensures var (after, answer) := Admit(entries, ip, session.ipKey, nowMs);
            Held(after, key) == |From(if answer == Ok then sessions[sid := session] else sessions, key)| <= Most(ip)
  {
    HeldAfterAdmit(entries, ip, session.ipKey, nowMs, key);
    OneMoreFrom(sessions, sid, session, key);
  }

  lemma CountsAfterAdmit(sessions: Sessions, entries: IpEntries, ip: IpPolicy, sid: SessionId, session: Session, nowMs: int)
    requires SoundCounts(sessions, entries, ip) && sid !in sessions
    ensures var (after, answer) := Admit(entries, ip, session.ipKey, nowMs);
            SoundCounts(if answer == Ok then sessions[sid := session] else sessions, after, ip)
  {
    var (after, answer) := Admit(entries, ip, session.ipKey, nowMs);
    var now := if answer == Ok then sessions[sid := session] else sessions;
    forall key
      ensures Held(after, key) == |From(now, key)| <= Most(ip)
    {
      KeyAfterAdmit(sessions, entries, ip, sid, session, nowMs, key);
    }
  }

  lemma ConnectKeeps(s: Relay, cfg: Settings, sid: SessionId, ipKey: Address, crowded: bool, nowMs: int)
    requires Inv(s, cfg)
    ensures Inv(Connect(s, cfg, sid, ipKey, crowded, nowMs), cfg)
  {
    if !crowded && sid !in s.sessions {
      var session := Session(Connected, "", ipKey, false, true);
      CountsAfterAdmit(s.sessions, s.entries, cfg.ip, sid, session, nowMs);
      forall id
        ensures sid !in RoomRuns.Members(s.registry, id)
      {
        assert RoomRuns.Members(s.registry, id) == ReadyIn(s.sessions, id);
      }
      SessionsAfterPut(s.sessions, s.registry, sid, session, s.registry);
    }
  }

  lemma SettleKeeps(s: Relay, cfg: Settings, registry: Registry, sid: SessionId, room: RoomId, joined: bool)
    requires Inv(s, cfg) && sid in s.sessions && s.sessions[sid].phase == Challenged
    requires RoomRuns.Sound(registry, cfg.caps)
    requires forall id :: RoomRuns.Members(registry, id)
                          == RoomRuns.Members(s.registry, id) + if joined && id == room then {sid} else {}
    ensures Inv(Settle(s, registry, sid, room, joined), cfg)
  {
    var session := Settle(s, registry, sid, room, joined).sessions[sid];
    CountsAfterPut(s.sessions, s.entries, cfg.ip, sid, session);
    forall id
      ensures sid !in RoomRuns.Members(s.registry, id)
    {
      assert RoomRuns.Members(s.registry, id) == ReadyIn(s.sessions, id);
    }
    SessionsAfterPut(s.sessions, s.registry, sid, session, registry);
  }

  lemma TryJoinKeeps(s: Relay, cfg: Settings, sid: SessionId, room: RoomId, nowMs: int)
    requires Inv(s, cfg) && sid in s.sessions && s.sessions[sid].phase == Challenged
    ensures Inv(TryJoin(s, cfg, sid, room, nowMs).0, cfg)
  {
    var (registry, result) := Join(s.registry, cfg.caps, sid, room, nowMs);
    RoomRuns.JoinKeeps(s.registry, cfg.caps, sid, room, nowMs);
    forall id {
      RoomRuns.JoinMembers(s.registry, cfg.caps, sid, room, nowMs, id);
    }
    SettleKeeps(s, cfg, registry, sid, room, result.Joined?);
  }

  lemma AuthenticateKeeps(s: Relay, cfg: Settings, sid: SessionId, verdict: Option<RoomId>, nowMs: int)
    requires Inv(s, cfg) && sid in s.sessions && s.sessions[sid].phase == Challenged
    ensures Inv(Authenticate(s, cfg, sid, verdict, nowMs), cfg)
  {
    if verdict.None? {
      UpdateKeeps(s, cfg, sid, s.sessions[sid].(open := false));
    } else {
      var (tried, joined) := TryJoin(s, cfg, sid, verdict.value, nowMs);
      TryJoinKeeps(s, cfg, sid, verdict.value, nowMs);
      FetchStepKeeps(tried, cfg, verdict.value, nowMs);
      assert joined ==> Authenticate(s, cfg, sid, verdict, nowMs)
                        == tried.(registry := Fetch(tried.registry, cfg.caps, verdict.value, nowMs).0);
    }
  }

  lemma ForwardKeeps(s: Relay, cfg: Settings, sid: SessionId, msg: MsgId, frame: Frame, nowMs: int)
    requires Inv(s, cfg) && sid in s.sessions
    ensures Inv(Forward(s, cfg, sid, msg, frame, nowMs), cfg)
  {
    var id := s.sessions[sid].roomId;
    NoteStepKeeps(s, cfg, id, msg);
    var (registry, known) := NoteMsg(s.registry, cfg.caps, id, msg);
    var noted := s.(registry := registry);
    if known {
      assert Forward(s, cfg, sid, msg, frame, nowMs) == noted;
    } else {
      RetainStepKeeps(noted, cfg, id, frame, msg, nowMs);
      assert Forward(s, cfg, sid, msg, frame, nowMs)
             == noted.(registry := Retain(registry, cfg.caps, id, frame, msg, nowMs).0);
    }
  }

  lemma HandshakeKeeps(s: Relay, cfg: Settings, sid: SessionId, message: Message, nowMs: int)
    requires Inv(s, cfg) && sid in s.sessions && s.sessions[sid].phase != Ready
    ensures Inv(Receive(s, cfg, sid, message, nowMs), cfg)
  {
    var session := s.sessions[sid];
    UpdateKeeps(s, cfg, sid, session.(open := false));
    if session.phase == Connected {
      UpdateKeeps(s, cfg, sid, session.(phase := Challenged));
    } else if message.Auth? {
      AuthenticateKeeps(s, cfg, sid, message.verdict, nowMs);
    }
  }

  lemma ReadyKeeps(s: Relay, cfg: Settings, sid: SessionId, message: Message, nowMs: int)
    requires Inv(s, cfg) && sid in s.sessions && s.sessions[sid].phase == Ready
    ensures Inv(Receive(s, cfg, sid, message, nowMs), cfg)
  {
    var session := s.sessions[sid];
    UpdateKeeps(s, cfg, sid, session.(open := false));
    if message.Clip? {
      ForwardKeeps(s, cfg, sid, message.msg, message.frame, nowMs);
    } else if message.Note? {
      NoteStepKeeps(s, cfg, session.roomId, message.msg);
    } else if message.FetchLast? {
      FetchStepKeeps(s, cfg, session.roomId, nowMs);
    }
  }

  lemma CountsAfterRelease(sessions: Sessions, entries: IpEntries, ip: IpPolicy, sid: SessionId, nowMs: int)
    requires SoundCounts(sessions, entries, ip) && sid in sessions
    ensures SoundCounts(sessions - {sid}, Release(entries, sessions[sid].ipKey, nowMs), ip)
  {
    var ipKey := sessions[sid].ipKey;
    forall key
      ensures Held(Release(entries, ipKey, nowMs), key) == |From(sessions - {sid}, key)|
              <= Most(ip)
    {
      HeldAfterRelease(entries, ipKey, nowMs, key);
      AfterRemoval(sessions, sid, "", key);
      assert Held(entries, key) == |From(sessions, key)|;
      assert sid in From(sessions, key) <==> key == ipKey;
    }
  }

  lemma DisconnectKeeps(s: Relay, cfg: Settings, sid: SessionId, nowMs: int)
    requires Inv(s, cfg)
    ensures Inv(Disconnect(s, sid, nowMs), cfg)
  {
    if sid in s.sessions {
      var session := s.sessions[sid];
      CountsAfterRelease(s.sessions, s.entries, cfg.ip, sid, nowMs);
      RoomRuns.LeaveKeeps(s.registry, cfg.caps, sid, session.roomId, nowMs);
      var after := Disconnect(s, sid, nowMs);
      forall id
        ensures RoomRuns.Members(after.registry, id) == ReadyIn(after.sessions, id)
      {
        AfterRemoval(s.sessions, sid, id, "");
        assert RoomRuns.Members(s.registry, id) == ReadyIn(s.sessions, id);
        RoomRuns.LeaveMembers(s.registry, sid, session.roomId, nowMs, id);
      }
    }
  }

  lemma SweepKeeps(s: Relay, cfg: Settings, nowMs: int)
    requires Inv(s, cfg)
    ensures Inv(SweepRelay(s, cfg, nowMs), cfg)
  {
    RoomRuns.SweepMeaning(s.registry, cfg.caps, s.registry.order, nowMs);
    forall id {
      RoomRuns.SweepMembers(s.registry, cfg.caps, nowMs, id);
    }
    RegistryKeeps(s, cfg, SweepRooms(s.registry, cfg.caps, s.registry.order, nowMs));
    forall key {
      HeldAfterSweep(s.entries, cfg.ip, nowMs, cfg.ipIdleMs, key);
    }
  }

  lemma StepKeeps(s: Relay, cfg: Settings, e: Event)
    requires Inv(s, cfg)
    ensures Inv(Step(s, cfg, e), cfg)
  {
    match e
    case Arrived(sid, ipKey, crowded, at) => ConnectKeeps(s, cfg, sid, ipKey, crowded, at);
    case Received(sid, message, at) =>
      if sid in s.sessions {
        if s.sessions[sid].phase == Ready {
          ReadyKeeps(s, cfg, sid, message, at);
        } else {
          HandshakeKeeps(s, cfg, sid, message, at);
        }
      }
    case Closing(sid) =>
      if sid in s.sessions {
        UpdateKeeps(s, cfg, sid, s.sessions[sid].(open := false));
      }
    case Gone(sid, at) => DisconnectKeeps(s, cfg, sid, at);
    case Swept(at) => SweepKeeps(s, cfg, at);
  }

  ghost function After(cfg: Settings, events: seq<Event>): (s: Relay)
    ensures Inv(s, cfg)
  {
    if events == [] then NOWHERE
    else
      var before := After(cfg, events[..|events| - 1]);
      StepKeeps(before, cfg, events[|events| - 1]);
      Step(before, cfg, events[|events| - 1])
  }

  // ------------------------------------------------------------------ what that means over every run

  /** The room of a ready session exists and has it as a member: it was not evicted under it. */
  lemma ReadySessionsKeepTheirRoom(cfg: Settings, events: seq<Event>, sid: SessionId)
    requires var s := After(cfg, events); sid in s.sessions && s.sessions[sid].phase == Ready
    ensures var s := After(cfg, events);
            var id := s.sessions[sid].roomId;
            id in s.registry.rooms && sid in s.registry.rooms[id].connections
  {
    var s := After(cfg, events);
    var id := s.sessions[sid].roomId;
    assert sid in ReadyIn(s.sessions, id);
    assert RoomRuns.Members(s.registry, id) == ReadyIn(s.sessions, id);
  }

  /** A clip goes to exactly the others the registry has in the sender's room, but for those whose socket is closing. */
  lemma RecipientsAreTheRoom(cfg: Settings, events: seq<Event>, sid: SessionId)
    requires var s := After(cfg, events); sid in s.sessions && s.sessions[sid].phase == Ready
    ensures var s := After(cfg, events);
            var id := s.sessions[sid].roomId;
            && (forall peer :: peer in Reachable(s.sessions, id) - {sid} <==>
                  peer in RoomRuns.Members(s.registry, id) && peer != sid && peer in s.sessions && s.sessions[peer].open)
            && |ReadyIn(s.sessions, id)| <= cfg.caps.maxConnsPerRoom
  {
    ReadySessionsKeepTheirRoom(cfg, events, sid);
    var s := After(cfg, events);
    var id := s.sessions[sid].roomId;
    assert RoomRuns.Members(s.registry, id) == ReadyIn(s.sessions, id);
    assert RoomRuns.SoundRoom(s.registry.rooms[id], cfg.caps);
  }

  // ------------------------------------------------------------------ nobody is ready unproved

  predicate Leaves(e: Event, sid: SessionId) {
    e.Gone? && e.sid == sid
  }

  /** Whether a hello that fits came from this session since it was last gone. */
  ghost predicate Greeted(events: seq<Event>, sid: SessionId) {
    events != []
    && var e := events[|events| - 1];
       (e.Received? && e.sid == sid && e.message == Hello(true))
       || (!Leaves(e, sid) && Greeted(events[..|events| - 1], sid))
  }

  /** Whether it then proved that it belongs to this room. */
  ghost predicate Proved(events: seq<Event>, sid: SessionId, room: RoomId) {
    events != []
    && var init, e := events[..|events| - 1], events[|events| - 1];
       (e.Received? && e.sid == sid && e.message == Auth(Some(room)) && Greeted(init, sid))
       || (!Leaves(e, sid) && Proved(init, sid, room))
  }

  /** How a session can have come into the phase it is in. */
  lemma PhaseCameFrom(s: Relay, cfg: Settings, e: Event, sid: SessionId)
    requires Listed(s.registry) && sid in Step(s, cfg, e).sessions
    ensures var after := Step(s, cfg, e).sessions[sid];
            !Leaves(e, sid)
            && match after.phase
               case Connected => true
               case Challenged =>
                 sid in s.sessions
                 && (s.sessions[sid].phase == Challenged
                     || (e.Received? && e.sid == sid && e.message == Hello(true)))
               case Ready =>
                 sid in s.sessions
                 && ((s.sessions[sid].phase == Ready && s.sessions[sid].roomId == after.roomId)
                     || (s.sessions[sid].phase == Challenged && e.Received? && e.sid == sid
                         && e.message == Auth(Some(after.roomId))))
  {
    if e.Received? && sid in s.sessions && e.sid == sid && s.sessions[sid].phase == Challenged && e.message.Auth? {
      AuthPhase(s, cfg, sid, e.message.verdict, e.at);
    }
    if e.Received? && e.sid != sid && e.sid in s.sessions && e.message.Auth? {
      AuthOthers(s, cfg, e.sid, e.message.verdict, e.at, sid);
    }
  }

  lemma AuthPhase(s: Relay, cfg: Settings, sid: SessionId, verdict: Option<RoomId>, nowMs: int)
    requires Listed(s.registry) && sid in s.sessions && s.sessions[sid].phase == Challenged
    ensures var after := Authenticate(s, cfg, sid, verdict, nowMs).sessions;
            && sid in after
            && (after[sid].phase == Challenged || (after[sid].phase == Ready && verdict == Some(after[sid].roomId)))
  {
  }

  lemma AuthOthers(s: Relay, cfg: Settings, sid: SessionId, verdict: Option<RoomId>, nowMs: int, other: SessionId)
    requires Listed(s.registry) && sid in s.sessions && other != sid
    ensures var after := Authenticate(s, cfg, sid, verdict, nowMs).sessions;
            && (other in after <==> other in s.sessions) && (other in after ==> after[other] == s.sessions[other])
  {
  }

  /**
   * Over every run, a session that is ready said a hello that fits and then proved that it belongs to
   * the very room it is in, both since it was last gone.
   */
  lemma {:induction false} ReadyMeansProved(cfg: Settings, events: seq<Event>, sid: SessionId)
    requires sid in After(cfg, events).sessions
    ensures var session := After(cfg, events).sessions[sid];
            && (session.phase == Challenged ==> Greeted(events, sid))
            && (session.phase == Ready ==> Proved(events, sid, session.roomId))
  {
    if events != [] {
      var init, e := events[..|events| - 1], events[|events| - 1];
      var before := After(cfg, init);
      PhaseCameFrom(before, cfg, e, sid);
      if sid in before.sessions {
        ReadyMeansProved(cfg, init, sid);
      }
    }
  }
}
