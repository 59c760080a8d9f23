/**
 * The relay's sessions together with the slots their clips go through, server/src/server.ts: what
 * every receiver in a room ends up with, over every run of the relay with all its sessions.
 */
module Fanout {
  import opened Options
  import opened Rooms
  import R = Relay
  import D = Delivery
  import RoomRuns

  /** `slots` has one slot a session. Whether a socket is open stands in both and is the same. */
  datatype Hub = Hub(relay: R.Relay, slots: map<R.SessionId, D.Slot>)

  /** `Ticked` is the flusher going over all sessions; `Buffered` is one socket filling or draining. */
  datatype Happening =
    | Relayed(event: R.Event)
    | Buffered(sid: R.SessionId, bytes: nat)
    | Chunked(sid: R.SessionId)
    | Ticked(at: int)

  const IDLE: Hub := Hub(R.NOWHERE, map[])

  /** The slot after a relay event, which may hand it a clip or decide to close its socket. */
  function Served(hub: Hub, cfg: R.Settings, p: D.Pressure, e: R.Event, sid: R.SessionId, open: bool): D.Slot {
    var slot := if sid in hub.slots then hub.slots[sid] else D.FRESH;
    var after :=
      if R.TakenIn(hub.relay, e) && sid in R.Recipients(hub.relay, cfg, e.sid, e.message.msg) then
        D.Deliver(slot, p, e.message.frame, e.at)
      else slot;
    after.(open := open)
  }

  /** Each session's socket is open if and only if its slot's is. */
  function Synced(hub: Hub): Hub {
    var sessions := hub.relay.sessions;
    hub.(relay := hub.relay.(sessions :=
           map sid | sid in sessions ::
             if sid in hub.slots then sessions[sid].(open := hub.slots[sid].open) else sessions[sid]))
  }

  function Advance(hub: Hub, cfg: R.Settings, p: D.Pressure, e: Happening): Hub
    requires Listed(hub.relay.registry)
  {
    match e
    case Relayed(event) =>
      var relay := R.Step(hub.relay, cfg, event);
      Hub(relay, map sid | sid in relay.sessions :: Served(hub, cfg, p, event, sid, relay.sessions[sid].open))
    case Buffered(sid, bytes) =>
      if sid in hub.slots then hub.(slots := hub.slots[sid := hub.slots[sid].(bufferedAmount := bytes)]) else hub
    case Chunked(sid) =>
      if sid in hub.slots then Synced(hub.(slots := hub.slots[sid := D.Chunk(hub.slots[sid], p)])) else hub
    case Ticked(at) =>
      Synced(hub.(slots := map sid | sid in hub.slots :: D.Flush(hub.slots[sid], p, at)))
  }

  ghost predicate Linked(hub: Hub) {
    hub.slots.Keys == hub.relay.sessions.Keys
    && forall sid | sid in hub.slots :: hub.slots[sid].open == hub.relay.sessions[sid].open
  }

  ghost predicate Sound(hub: Hub, cfg: R.Settings) {
    R.Inv(hub.relay, cfg) && Linked(hub)
  }

  /** Closing sockets changes nothing that the relay counts. */
  lemma SyncedKeeps(hub: Hub, cfg: R.Settings)
    requires R.Inv(hub.relay, cfg)
    ensures R.Inv(Synced(hub).relay, cfg)
  {
    var before, after := hub.relay.sessions, Synced(hub).relay.sessions;
    forall id
      ensures R.ReadyIn(after, id) == R.ReadyIn(before, id)
    {
    }
    forall key
      ensures R.From(after, key) == R.From(before, key)
    {
    }
  }

  lemma AdvanceKeeps(hub: Hub, cfg: R.Settings, p: D.Pressure, e: Happening)
    requires Sound(hub, cfg)
    ensures Sound(Advance(hub, cfg, p, e), cfg)
  {
    match e
    case Relayed(event) => R.StepKeeps(hub.relay, cfg, event);
    case Buffered(sid, bytes) =>
    case Chunked(sid) =>
      if sid in hub.slots {
        SyncedKeeps(hub.(slots := hub.slots[sid := D.Chunk(hub.slots[sid], p)]), cfg);
      }
    case Ticked(at) =>
      SyncedKeeps(hub.(slots := map sid | sid in hub.slots :: D.Flush(hub.slots[sid], p, at)), cfg);
  }

  /** In every reachable state the relay is sound, and its sessions and slots agree. */
  ghost function After(cfg: R.Settings, p: D.Pressure, run: seq<Happening>): (hub: Hub)
    ensures Sound(hub, cfg)
  {
    if run == [] then IDLE
    else
      var before := After(cfg, p, run[..|run| - 1]);
      AdvanceKeeps(before, cfg, p, run[|run| - 1]);
      Advance(before, cfg, p, run[|run| - 1])
  }

  // ------------------------------------------------------------------ one receiver's share of a run

  predicate Leaves(e: Happening, sid: R.SessionId) {
    e.Relayed? && e.event.Gone? && e.event.sid == sid
  }

  /** Whether the relay takes in a clip somebody else sent to a room that has this session as a member. */
  ghost predicate MeantFor(hub: Hub, cfg: R.Settings, e: Happening, sid: R.SessionId) {
    e.Relayed? && R.TakenIn(hub.relay, e.event) && e.event.sid != sid
    && sid in RoomRuns.Members(hub.relay.registry, hub.relay.sessions[e.event.sid].roomId)
  }

  /** The clips taken in from others in its room while it was a member there, since it was last gone. */
  ghost function Due(cfg: R.Settings, p: D.Pressure, run: seq<Happening>, sid: R.SessionId): seq<D.Clip> {
    if run == [] then []
    else
      var init, e := run[..|run| - 1], run[|run| - 1];
      if Leaves(e, sid) then []
      else Due(cfg, p, init, sid) + if MeantFor(After(cfg, p, init), cfg, e, sid) then [e.event.message.frame] else []
  }

  /** What one step is to the slot of a session that stays or comes. */
  ghost function Share(hub: Hub, cfg: R.Settings, p: D.Pressure, e: Happening, sid: R.SessionId): (share: seq<D.Event>)
    requires Listed(hub.relay.registry)
    ensures |share| <= 1
  {
    match e
    case Relayed(event) =>
      var after := Advance(hub, cfg, p, e).slots;
      if R.TakenIn(hub.relay, event) && sid in R.Recipients(hub.relay, cfg, event.sid, event.message.msg) then
        [D.Forwarded(event.message.frame, event.at)]
      else if sid in after && !after[sid].open then [D.Closing]
      else []
    case Buffered(other, bytes) => if other == sid then [D.Buffered(bytes)] else []
    case Chunked(other) => if other == sid then [D.Chunked] else []
    case Ticked(at) => [D.Ticked(at)]
  }

  /** All that happened to a session's slot since the session came. */
  ghost function Shares(cfg: R.Settings, p: D.Pressure, run: seq<Happening>, sid: R.SessionId): seq<D.Event> {
    if run == [] || sid !in After(cfg, p, run[..|run| - 1]).slots then []
    else
      var init, e := run[..|run| - 1], run[|run| - 1];
      Shares(cfg, p, init, sid) + Share(After(cfg, p, init), cfg, p, e, sid)
  }

  /** A clip taken in changes no session. */
  lemma TakenInKeepsSessions(s: R.Relay, cfg: R.Settings, e: R.Event)
    requires Listed(s.registry) && R.TakenIn(s, e)
    ensures R.Step(s, cfg, e).sessions == s.sessions
  {
  }

  /** No socket opens again. */
  lemma StaysClosed(s: R.Relay, cfg: R.Settings, e: R.Event, sid: R.SessionId)
    requires Listed(s.registry) && sid in s.sessions && sid in R.Step(s, cfg, e).sessions
    ensures R.Step(s, cfg, e).sessions[sid].open ==> s.sessions[sid].open
  {
  }

  /** One share more of a slot's events is at most one step more. */
  lemma OneShareMore(p: D.Pressure, events: seq<D.Event>, share: seq<D.Event>)
    requires |share| <= 1
    ensures D.After(p, events + share) == if share == [] then D.After(p, events) else D.Step(D.After(p, events), p, share[0])
    ensures D.Forwards(events + share)
            == D.Forwards(events) + if share != [] && share[0].Forwarded? then [share[0].clip] else []
  {
    if share == [] {
      assert events + share == events;
    } else {
      assert (events + share)[..|events|] == events;
    }
  }

  lemma RelayedShareIsTheStep(hub: Hub, cfg: R.Settings, p: D.Pressure, event: R.Event, sid: R.SessionId)
    requires Sound(hub, cfg) && sid in hub.slots && sid in R.Step(hub.relay, cfg, event).sessions
    ensures var share := Share(hub, cfg, p, Relayed(event), sid);
            Served(hub, cfg, p, event, sid, R.Step(hub.relay, cfg, event).sessions[sid].open)
            == if share == [] then hub.slots[sid] else D.Step(hub.slots[sid], p, share[0])
  {
    StaysClosed(hub.relay, cfg, event, sid);
    if R.TakenIn(hub.relay, event) {
      TakenInKeepsSessions(hub.relay, cfg, event);
    }
  }

  /** What a step does to the slot of a session that stays. */
  lemma ShareIsTheStep(hub: Hub, cfg: R.Settings, p: D.Pressure, e: Happening, sid: R.SessionId)
    requires Sound(hub, cfg) && sid in hub.slots && sid in Advance(hub, cfg, p, e).slots
    ensures var share := Share(hub, cfg, p, e, sid);
            Advance(hub, cfg, p, e).slots[sid] == if share == [] then hub.slots[sid] else D.Step(hub.slots[sid], p, share[0])
  {
    if e.Relayed? {
      RelayedShareIsTheStep(hub, cfg, p, e.event, sid);
    }
  }

  /** A session that comes has a slot nothing happened to. */
  lemma Comes(hub: Hub, cfg: R.Settings, p: D.Pressure, e: Happening, sid: R.SessionId)
    requires Sound(hub, cfg) && sid !in hub.slots && sid in Advance(hub, cfg, p, e).slots
    ensures Advance(hub, cfg, p, e).slots[sid] == D.FRESH
  {
  }

  /** Every slot is where its own share of the run takes a fresh one. */
  lemma {:induction false} SlotIsItsShare(cfg: R.Settings, p: D.Pressure, run: seq<Happening>, sid: R.SessionId)
    requires sid in After(cfg, p, run).slots
    ensures After(cfg, p, run).slots[sid] == D.After(p, Shares(cfg, p, run, sid))
  {
    var init, e := run[..|run| - 1], run[|run| - 1];
    var before := After(cfg, p, init);
    if sid in before.slots {
      SlotIsItsShare(cfg, p, init, sid);
      ShareIsTheStep(before, cfg, p, e, sid);
      OneShareMore(p, Shares(cfg, p, init, sid), Share(before, cfg, p, e, sid));
    } else {
      Comes(before, cfg, p, e, sid);
    }
  }

  /** While its socket is open, a session is a recipient exactly when the clip is meant for it. */
  lemma RecipientIfMeant(hub: Hub, cfg: R.Settings, e: Happening, sid: R.SessionId)
    requires Sound(hub, cfg) && e.Relayed? && R.TakenIn(hub.relay, e.event)
    requires sid in hub.slots && hub.slots[sid].open
    ensures sid in R.Recipients(hub.relay, cfg, e.event.sid, e.event.message.msg) <==> MeantFor(hub, cfg, e, sid)
  {
    var id := hub.relay.sessions[e.event.sid].roomId;
    assert RoomRuns.Members(hub.relay.registry, id) == R.ReadyIn(hub.relay.sessions, id);
  }

  lemma NotMeantForStrangers(hub: Hub, cfg: R.Settings, e: Happening, sid: R.SessionId)
    requires Sound(hub, cfg) && sid !in hub.slots
    ensures !MeantFor(hub, cfg, e, sid)
  {
    if e.Relayed? && R.TakenIn(hub.relay, e.event) {
      var id := hub.relay.sessions[e.event.sid].roomId;
      assert RoomRuns.Members(hub.relay.registry, id) == R.ReadyIn(hub.relay.sessions, id);
    }
  }

  /** A session goes only by leaving. */
  lemma GoesByLeaving(hub: Hub, cfg: R.Settings, p: D.Pressure, e: Happening, sid: R.SessionId)
    requires Sound(hub, cfg)
    ensures sid in hub.slots && sid !in Advance(hub, cfg, p, e).slots ==> Leaves(e, sid)
    ensures Leaves(e, sid) ==> sid !in Advance(hub, cfg, p, e).slots
  {
  }

  /** Nothing is due to a session that is not there. */
  lemma {:induction false} NothingDue(cfg: R.Settings, p: D.Pressure, run: seq<Happening>, sid: R.SessionId)
    requires sid !in After(cfg, p, run).slots
    ensures Due(cfg, p, run, sid) == []
  {
    if run != [] {
      var init, e := run[..|run| - 1], run[|run| - 1];
      var before := After(cfg, p, init);
      GoesByLeaving(before, cfg, p, e, sid);
      if !Leaves(e, sid) {
        NothingDue(cfg, p, init, sid);
        NotMeantForStrangers(before, cfg, e, sid);
      }
    }
  }

  lemma OpenBefore(hub: Hub, cfg: R.Settings, p: D.Pressure, e: Happening, sid: R.SessionId)
    requires Sound(hub, cfg) && sid in hub.slots && sid in Advance(hub, cfg, p, e).slots
    ensures Advance(hub, cfg, p, e).slots[sid].open ==> hub.slots[sid].open
  {
    if e.Relayed? {
      StaysClosed(hub.relay, cfg, e.event, sid);
    }
  }

  /** One step hands an open socket the clip that is meant for it, and no other. */
  lemma ForwardsStep(hub: Hub, cfg: R.Settings, p: D.Pressure, e: Happening, sid: R.SessionId, events: seq<D.Event>)
    requires Sound(hub, cfg) && sid in hub.slots && hub.slots[sid].open
    ensures D.Forwards(events + Share(hub, cfg, p, e, sid))
            == D.Forwards(events) + if MeantFor(hub, cfg, e, sid) then [e.event.message.frame] else []
  {
    if e.Relayed? && R.TakenIn(hub.relay, e.event) {
      RecipientIfMeant(hub, cfg, e, sid);
    }
    OneShareMore(p, events, Share(hub, cfg, p, e, sid));
  }

  /** What was forwarded to an open socket is what was due to it. */
  lemma {:induction false} ForwardsAreDue(cfg: R.Settings, p: D.Pressure, run: seq<Happening>, sid: R.SessionId)
    requires var hub := After(cfg, p, run); sid in hub.slots && hub.slots[sid].open
    ensures D.Forwards(Shares(cfg, p, run, sid)) == Due(cfg, p, run, sid)
  {
    var init, e := run[..|run| - 1], run[|run| - 1];
    var before := After(cfg, p, init);
    GoesByLeaving(before, cfg, p, e, sid);
    if sid in before.slots {
      OpenBefore(before, cfg, p, e, sid);
      ForwardsStep(before, cfg, p, e, sid, Shares(cfg, p, init, sid));
      ForwardsAreDue(cfg, p, init, sid);
    } else {
      NothingDue(cfg, p, init, sid);
      NotMeantForStrangers(before, cfg, e, sid);
    }
  }

  // ------------------------------------------------------------------ what every receiver ends up with

  /**
   * Over every run of the relay with all its sessions, the live clips sent to a session whose socket
   * is open, followed by the one parked for it, are clips taken in from others in its room while it
   * was a member, each once, in the order they were taken in, and the last of them is the newest.
   */
  lemma ReceivesInOrderEndingInNewest(cfg: R.Settings, p: D.Pressure, run: seq<Happening>, sid: R.SessionId)
    returns (picks: seq<nat>)
    requires var hub := After(cfg, p, run); sid in hub.slots && hub.slots[sid].open
    ensures D.Picks(picks, D.Line(After(cfg, p, run).slots[sid]), Due(cfg, p, run, sid))
    ensures D.EndsInNewest(picks, Due(cfg, p, run, sid))
  {
    SlotIsItsShare(cfg, p, run, sid);
    ForwardsAreDue(cfg, p, run, sid);
    picks := D.SentInOrderEndingInNewest(p, Shares(cfg, p, run, sid));
  }

  lemma TickedSlot(hub: Hub, cfg: R.Settings, p: D.Pressure, sid: R.SessionId, at: int)
    requires Sound(hub, cfg) && sid in hub.slots
    ensures sid in Advance(hub, cfg, p, Ticked(at)).slots
    ensures Advance(hub, cfg, p, Ticked(at)).slots[sid] == D.Flush(hub.slots[sid], p, at)
  {
  }

  lemma TickedRun(cfg: R.Settings, p: D.Pressure, run: seq<Happening>, sid: R.SessionId, at: int)
    ensures After(cfg, p, run + [Ticked(at)]) == Advance(After(cfg, p, run), cfg, p, Ticked(at))
    ensures Due(cfg, p, run + [Ticked(at)], sid) == Due(cfg, p, run, sid)
  {
    assert (run + [Ticked(at)])[..|run|] == run;
  }

  lemma FlushCatchesUp(cfg: R.Settings, p: D.Pressure, run: seq<Happening>, sid: R.SessionId, at: int)
    requires var hub := After(cfg, p, run);
             sid in hub.slots && hub.slots[sid].open && !D.ShouldPark(hub.slots[sid].bufferedAmount, p)
    ensures var after := D.Flush(After(cfg, p, run).slots[sid], p, at); after.open && after.pendingClip.None?
  {
    SlotIsItsShare(cfg, p, run, sid);
    D.ParkedExactlyWhileTimed(p, Shares(cfg, p, run, sid));
  }

  lemma EndsInTheNewest(slot: D.Slot, picks: seq<nat>, due: seq<D.Clip>)
    requires D.Picks(picks, D.Line(slot), due) && slot.pendingClip.None?
    requires D.EndsInNewest(picks, due)
    ensures due != [] ==> slot.sent != [] && slot.sent[|slot.sent| - 1] == due[|due| - 1]
  {
    assert D.Line(slot) == slot.sent;
  }

  /** A tick leaves a socket that is open and not behind with nothing parked, and with the newest clip due sent last. */
  lemma CaughtUpHasTheNewest(cfg: R.Settings, p: D.Pressure, run: seq<Happening>, sid: R.SessionId, at: int)
    requires var hub := After(cfg, p, run);
             sid in hub.slots && hub.slots[sid].open && !D.ShouldPark(hub.slots[sid].bufferedAmount, p)
    ensures var hub := After(cfg, p, run + [Ticked(at)]);
            && sid in hub.slots && hub.slots[sid].open && hub.slots[sid].pendingClip.None?
            && var due, sent := Due(cfg, p, run, sid), hub.slots[sid].sent;
               due != [] ==> sent != [] && sent[|sent| - 1] == due[|due| - 1]
  {
    TickedRun(cfg, p, run, sid, at);
    TickedSlot(After(cfg, p, run), cfg, p, sid, at);
    FlushCatchesUp(cfg, p, run, sid, at);
    var picks := ReceivesInOrderEndingInNewest(cfg, p, run + [Ticked(at)], sid);
    EndsInTheNewest(After(cfg, p, run + [Ticked(at)]).slots[sid], picks, Due(cfg, p, run, sid));
  }
}
