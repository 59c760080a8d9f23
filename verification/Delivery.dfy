/**
 * How clips reach one receiver, server/src/server.ts: at once, or through a single parked slot when
 * its socket is behind, with the flusher that empties the slot or gives the receiver up.
 */
module Delivery {
  import opened Options
  import Rooms

  type Clip = Rooms.Frame

  datatype Pressure = Pressure(softBytes: nat, hardBytes: nat, graceMs: nat)

  /** `sent` is every live clip handed to the open socket, in order. */
  datatype Slot = Slot(
    pendingClip: Option<Clip>,
    backpressureSinceMs: Option<int>,
    bufferedAmount: nat,
    open: bool,
    sent: seq<Clip>)

  const FRESH: Slot := Slot(None, None, 0, true, [])

  predicate ShouldPark(bufferedAmount: nat, p: Pressure) {
    bufferedAmount > p.softBytes
  }

  /** A socket that is closing takes nothing more. */
  function Send(s: Slot, clip: Clip): Slot {
    if s.open then s.(sent := s.sent + [clip]) else s
  }

  function Deliver(s: Slot, p: Pressure, clip: Clip, nowMs: int): Slot {
    if !s.open then s
    else if s.pendingClip.Some? || ShouldPark(s.bufferedAmount, p) then
      s.(pendingClip := Some(clip),
         backpressureSinceMs := if s.backpressureSinceMs.None? then Some(nowMs) else s.backpressureSinceMs)
    else Send(s, clip)
  }

  function Flush(s: Slot, p: Pressure, nowMs: int): Slot {
    if s.pendingClip.Some? && !ShouldPark(s.bufferedAmount, p) then
      Send(s.(pendingClip := None, backpressureSinceMs := None), s.pendingClip.value)
    else if s.backpressureSinceMs.Some? && nowMs - s.backpressureSinceMs.value > p.graceMs then
      s.(open := false)
    else s
  }

  function Chunk(s: Slot, p: Pressure): Slot {
    if s.open && s.bufferedAmount > p.hardBytes then s.(open := false) else s
  }

  class Receiver {
    var pendingClip: Option<Clip>
    var backpressureSinceMs: Option<int>
    var bufferedAmount: nat
    var open: bool
    var sent: seq<Clip>
    const pressure: Pressure

    function State(): Slot
      reads this
    {
      Slot(pendingClip, backpressureSinceMs, bufferedAmount, open, sent)
    }

    constructor (pressure: Pressure)
      ensures this.pressure == pressure && State() == FRESH
    {
      this.pressure := pressure;
      pendingClip, backpressureSinceMs, bufferedAmount, open, sent := None, None, 0, true, [];
    }

    method SocketSend(clip: Clip)
      modifies this
      ensures State() == Send(old(State()), clip)
    {
      if open {
        sent := sent + [clip];
      }
    }

    method DeliverClip(clip: Clip, nowMs: int)
      modifies this
      ensures State() == Deliver(old(State()), pressure, clip, nowMs)
    {
      if !open {
        return;
      }
      if pendingClip.Some? || bufferedAmount > pressure.softBytes {
        pendingClip := Some(clip);
        if backpressureSinceMs.None? {
          backpressureSinceMs := Some(nowMs);
        }
        return;
      }
      SocketSend(clip);
    }

    /** A chunk is never parked. It cannot be told from the clips sent here and is not one of them. */
    method DeliverChunk() returns (passed: bool)
      modifies this
      ensures State() == Chunk(old(State()), pressure)
      ensures passed <==> old(open) && open
    {
      if !open {
        return false;
      }
      if bufferedAmount > pressure.hardBytes {
        open := false;
        return false;
      }
      return true;
    }

    method FlushTick(nowMs: int)
      modifies this
      ensures State() == Flush(old(State()), pressure, nowMs)
    {
      if pendingClip.Some? && !(bufferedAmount > pressure.softBytes) {
        var frame := pendingClip.value;
        pendingClip := None;
        backpressureSinceMs := None;
        SocketSend(frame);
        return;
      }
      if backpressureSinceMs.Some? && nowMs - backpressureSinceMs.value > pressure.graceMs {
        open := false;
      }
    }
  }

  // ------------------------------------------------------------------ every run

  /** `Buffered` is the socket filling or draining, `Closing` a close decided elsewhere. */
  datatype Event =
    | Forwarded(clip: Clip, at: int)
    | Buffered(bytes: nat)
    | Chunked
    | Ticked(at: int)
    | Closing

  function Step(s: Slot, p: Pressure, e: Event): Slot {
    match e
    case Forwarded(clip, at) => Deliver(s, p, clip, at)
    case Buffered(bytes) => s.(bufferedAmount := bytes)
    case Chunked => Chunk(s, p)
    case Ticked(at) => Flush(s, p, at)
    case Closing => s.(open := false)
  }

  function After(p: Pressure, events: seq<Event>): Slot {
    if events == [] then FRESH else Step(After(p, events[..|events| - 1]), p, events[|events| - 1])
  }

  /** The clips forwarded to this receiver, in order. */
  function Forwards(events: seq<Event>): seq<Clip> {
    if events == [] then []
    else
      var e := events[|events| - 1];
      Forwards(events[..|events| - 1]) + if e.Forwarded? then [e.clip] else []
  }

  /** When the clip that first found the slot empty was parked, if the slot is taken. */
  function TakenSince(p: Pressure, events: seq<Event>): Option<int> {
    if events == [] then None
    else
      var init, e := events[..|events| - 1], events[|events| - 1];
      if After(p, events).pendingClip.None? then None
      else if After(p, init).pendingClip.None? && e.Forwarded? then Some(e.at)
      else TakenSince(p, init)
  }

  function Waiting(s: Slot): seq<Clip> {
    if s.pendingClip.Some? then [s.pendingClip.value] else []
  }

  ghost predicate Increasing(picks: seq<nat>, below: nat) {
    (forall i | 0 <= i < |picks| :: picks[i] < below)
    && forall i, j | 0 <= i < j < |picks| :: picks[i] < picks[j]
  }

  /** `picks` names the positions of `clips` in `all`, in order. */
  ghost predicate Picks(picks: seq<nat>, clips: seq<Clip>, all: seq<Clip>) {
    |picks| == |clips| && Increasing(picks, |all|)
    && forall i | 0 <= i < |picks| :: clips[i] == all[picks[i]]
  }

  /** The slot is taken exactly while the backpressure clock runs, and the clock started when it was taken. */
  lemma {:induction false} ParkedExactlyWhileTimed(p: Pressure, events: seq<Event>)
    ensures After(p, events).backpressureSinceMs == TakenSince(p, events)
    ensures After(p, events).pendingClip.Some? <==> After(p, events).backpressureSinceMs.Some?
  {
    if events != [] {
      ParkedExactlyWhileTimed(p, events[..|events| - 1]);
    }
  }

  lemma PicksTrimmed(picks: seq<nat>, clips: seq<Clip>, all: seq<Clip>, n: nat)
    requires Picks(picks, clips, all) && n <= |picks|
    ensures Picks(picks[..n], clips[..n], all)
  {
  }

  lemma PicksExtended(picks: seq<nat>, clips: seq<Clip>, all: seq<Clip>, clip: Clip)
    requires Picks(picks, clips, all)
    ensures Picks(picks + [|all|], clips + [clip], all + [clip])
  {
  }

  /** The clips sent, then the one waiting. */
  function Line(s: Slot): seq<Clip> {
    s.sent + Waiting(s)
  }

  lemma NewestTakesTheSlot(picks: seq<nat>, s: Slot, all: seq<Clip>, clip: Clip)
    requires Picks(picks, Line(s), all)
    ensures |s.sent| <= |picks| && Picks(picks[..|s.sent|] + [|all|], s.sent + [clip], all + [clip])
  {
    PicksTrimmed(picks, Line(s), all, |s.sent|);
    assert Line(s)[..|s.sent|] == s.sent;
    PicksExtended(picks[..|s.sent|], s.sent, all, clip);
  }

  /** A forwarded clip replaces the waiting one and comes last; nothing else changes the line. */
  lemma LineAfter(s: Slot, p: Pressure, e: Event)
    requires s.open
    ensures Line(Step(s, p, e)) == if e.Forwarded? then s.sent + [e.clip] else Line(s)
  {
  }

  ghost predicate EndsInNewest(picks: seq<nat>, all: seq<Clip>) {
    all != [] ==> picks != [] && picks[|picks| - 1] == |all| - 1
  }

  lemma StepPicks(picks: seq<nat>, s: Slot, p: Pressure, all: seq<Clip>, e: Event) returns (next: seq<nat>)
    requires s.open && Picks(picks, Line(s), all) && EndsInNewest(picks, all)
    ensures var more := if e.Forwarded? then all + [e.clip] else all;
            Picks(next, Line(Step(s, p, e)), more) && EndsInNewest(next, more)
  {
    LineAfter(s, p, e);
    next := picks;
    if e.Forwarded? {
      NewestTakesTheSlot(picks, s, all, e.clip);
      next := picks[..|s.sent|] + [|all|];
    }
  }

  /**
   * While the socket is open, the live clips sent followed by the parked one are clips that were
   * forwarded, in that order, each once, and the last of them is the newest clip forwarded.
   */
  lemma {:induction false} SentInOrderEndingInNewest(p: Pressure, events: seq<Event>) returns (picks: seq<nat>)
    requires After(p, events).open
    ensures Picks(picks, Line(After(p, events)), Forwards(events)) && EndsInNewest(picks, Forwards(events))
  {
    picks := [];
    if events != [] {
      var init, e := events[..|events| - 1], events[|events| - 1];
      picks := SentInOrderEndingInNewest(p, init);
      picks := StepPicks(picks, After(p, init), p, Forwards(init), e);
      assert Forwards(init) + [] == Forwards(init);
    }
  }

  /** A tick gives a receiver up exactly when its slot has been taken for longer than the grace and it is still behind. */
  lemma GivenUpExactlyWhenStalled(p: Pressure, events: seq<Event>, nowMs: int)
    requires After(p, events).open
    ensures var s := After(p, events);
            !Flush(s, p, nowMs).open <==>
              s.pendingClip.Some? && s.bufferedAmount > p.softBytes
              && TakenSince(p, events).Some? && nowMs - TakenSince(p, events).value > p.graceMs
  {
    ParkedExactlyWhileTimed(p, events);
  }

  // ------------------------------------------------------------------ what happens to each clip, from the run alone

  /** How much the socket holds: what it last reported. */
  function BufferOf(events: seq<Event>): nat {
    if events == [] then 0
    else if events[|events| - 1].Buffered? then events[|events| - 1].bytes
    else BufferOf(events[..|events| - 1])
  }

  /** The socket is past the soft limit. */
  predicate Behind(p: Pressure, events: seq<Event>) {
    BufferOf(events) > p.softBytes
  }

  /** A clip came while one waited or the socket was behind, and no tick found it caught up since. */
  predicate Waits(p: Pressure, events: seq<Event>) {
    events != []
    && var init, e := events[..|events| - 1], events[|events| - 1];
       match e
       case Forwarded(_, _) => Waits(p, init) || Behind(p, init)
       case Ticked(_) => Waits(p, init) && Behind(p, init)
       case _ => Waits(p, init)
  }

  function Newest(events: seq<Event>): Option<Clip> {
    if events == [] then None
    else if events[|events| - 1].Forwarded? then Some(events[|events| - 1].clip)
    else Newest(events[..|events| - 1])
  }

  /** Every clip sent: one that came while none waited and the socket was not behind, or the newest when it caught up. */
  function SentBy(p: Pressure, events: seq<Event>): seq<Clip> {
    if events == [] then []
    else
      var init, e := events[..|events| - 1], events[|events| - 1];
      match e
      case Forwarded(clip, _) => SentBy(p, init) + if Waits(p, init) || Behind(p, init) then [] else [clip]
      case Ticked(_) => SentBy(p, init) + if Waits(p, init) && !Behind(p, init) && Newest(init).Some? then [Newest(init).value] else []
      case _ => SentBy(p, init)
  }

  /** What closes the socket: a close from elsewhere, a chunk past the hard limit, a tick after too long a wait. */
  predicate Closes(p: Pressure, events: seq<Event>, e: Event) {
    match e
    case Closing => true
    case Chunked => BufferOf(events) > p.hardBytes
    case Ticked(at) =>
      Waits(p, events) && Behind(p, events) && TakenSince(p, events).Some? && at - TakenSince(p, events).value > p.graceMs
    case _ => false
  }

  predicate StaysOpen(p: Pressure, events: seq<Event>) {
    forall k | 0 <= k < |events| :: !Closes(p, events[..k], events[k])
  }

  lemma {:induction false} BufferIsTheLast(p: Pressure, events: seq<Event>)
    ensures After(p, events).bufferedAmount == BufferOf(events)
  {
    if events != [] {
      BufferIsTheLast(p, events[..|events| - 1]);
    }
  }

  lemma StaysOpenMore(p: Pressure, events: seq<Event>)
    requires events != []
    ensures var init, e := events[..|events| - 1], events[|events| - 1];
            StaysOpen(p, events) <==> StaysOpen(p, init) && !Closes(p, init, e)
  {
    var init := events[..|events| - 1];
    assert forall k | 0 <= k < |init| :: events[..k] == init[..k] && events[k] == init[k];
  }

  lemma {:induction false} RunDelivers(p: Pressure, events: seq<Event>)
    ensures var s := After(p, events);
            && (s.open <==> StaysOpen(p, events))
            && (s.open ==> s.sent == SentBy(p, events))
            && (s.open ==> s.pendingClip == if Waits(p, events) then Newest(events) else None)
            && (Waits(p, events) ==> Newest(events).Some?)
  {
    if events != [] {
      var init := events[..|events| - 1];
      RunDelivers(p, init);
      BufferIsTheLast(p, init);
      ParkedExactlyWhileTimed(p, init);
      StaysOpenMore(p, events);
    }
  }

  /** Over every run, the socket is open exactly as long as nothing closes it. */
  lemma OpenExactlyUntilClosed(p: Pressure, events: seq<Event>)
    ensures After(p, events).open <==> StaysOpen(p, events)
  {
    RunDelivers(p, events);
  }

  /**
   * Over every run while the socket is open, a clip that comes is parked exactly when one already waits
   * or the socket is past the soft limit, and otherwise sent at once.
   */
  lemma ParkedExactlyWhenBehind(p: Pressure, events: seq<Event>, clip: Clip, at: int)
    requires StaysOpen(p, events)
    ensures var before, after := After(p, events), After(p, events + [Forwarded(clip, at)]);
            && (before.pendingClip.Some? <==> Waits(p, events))
            && if Waits(p, events) || Behind(p, events)
               then after.pendingClip == Some(clip) && after.sent == before.sent
               else after.pendingClip == None && after.sent == before.sent + [clip]
  {
    var more := events + [Forwarded(clip, at)];
    assert more[..|more| - 1] == events;
    RunDelivers(p, events);
    RunDelivers(p, more);
    StaysOpenMore(p, more);
  }

  /** Nothing is sent while the socket is past the soft limit, whatever happens. */
  lemma NothingSentWhileBehind(p: Pressure, events: seq<Event>, e: Event)
    requires Behind(p, events)
    ensures After(p, events + [e]).sent == After(p, events).sent
  {
    assert (events + [e])[..|events|] == events;
    BufferIsTheLast(p, events);
  }
}
