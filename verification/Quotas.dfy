/**
 * The rolling byte quotas of server/src/limits.ts and the per room quota maps server/src/server.ts
 * keeps of them, with the bulk budget it charges and the sweeper that forgets idle quotas.
 */
module Quotas {
  import opened Options

  type RoomId = string

  datatype QuotaPolicy = QuotaPolicy(limit: nat, windowMs: nat)

  datatype Quota = Quota(used: nat, windowStartMs: int)

  predicate Expired(q: Quota, p: QuotaPolicy, nowMs: int) {
    nowMs < q.windowStartMs || nowMs - q.windowStartMs >= p.windowMs
  }

  function Roll(q: Quota, p: QuotaPolicy, nowMs: int): Quota {
    if Expired(q, p, nowMs) then Quota(0, nowMs) else q
  }

  function ChargeTo(q: Quota, p: QuotaPolicy, bytes: nat, nowMs: int): (Quota, bool) {
    var current := Roll(q, p, nowMs);
    if current.used + bytes > p.limit then (current, false)
    else (current.(used := current.used + bytes), true)
  }

  predicate Idle(q: Quota, p: QuotaPolicy, nowMs: int) {
    Expired(q, p, nowMs) || q.used == 0
  }

  class RollingQuota {
    var used: nat
    var windowStartMs: int
    const limit: nat
    const windowMs: nat

    function Policy(): QuotaPolicy {
      QuotaPolicy(limit, windowMs)
    }

    function State(): Quota
      reads this
    {
      Quota(used, windowStartMs)
    }

    constructor (limit: nat, windowMs: nat, nowMs: int)
      ensures Policy() == QuotaPolicy(limit, windowMs) && State() == Quota(0, nowMs)
    {
      this.limit := limit;
      this.windowMs := windowMs;
      used := 0;
      windowStartMs := nowMs;
    }

    method RollIfNeeded(nowMs: int)
      modifies this
      ensures State() == Roll(old(State()), Policy(), nowMs)
    {
      if nowMs < windowStartMs || nowMs - windowStartMs >= windowMs {
        windowStartMs := nowMs;
        used := 0;
      }
    }

    method Charge(bytes: nat, nowMs: int) returns (ok: bool)
      modifies this
      ensures (State(), ok) == ChargeTo(old(State()), Policy(), bytes, nowMs)
    {
      RollIfNeeded(nowMs);
      if used + bytes > limit {
        return false;
      }
      used := used + bytes;
      return true;
    }

    method IsIdle(nowMs: int) returns (idle: bool)
      ensures idle == Idle(State(), Policy(), nowMs)
    {
      return nowMs < windowStartMs || nowMs - windowStartMs >= windowMs || used == 0;
    }

    method RetryAfterMs(nowMs: int) returns (ms: nat)
      modifies this
      ensures State() == Roll(old(State()), Policy(), nowMs)
      ensures windowMs > 0 ==> State().windowStartMs <= nowMs < nowMs + ms == State().windowStartMs + windowMs
    {
      RollIfNeeded(nowMs);
      var left := windowStartMs + windowMs - nowMs;
      return if left > 0 then left else 0;
    }
  }

  // ------------------------------------------------------------------ one quota per room

  type QuotaMap = map<RoomId, Quota>

  function QuotaOf(m: QuotaMap, room: RoomId, nowMs: int): Quota {
    if room in m then m[room] else Quota(0, nowMs)
  }

  function ChargeRoom(m: QuotaMap, p: QuotaPolicy, room: RoomId, bytes: nat, nowMs: int): (QuotaMap, bool) {
    var (q, ok) := ChargeTo(QuotaOf(m, room, nowMs), p, bytes, nowMs);
    (m[room := q], ok)
  }

  function ChargeBoth(m: QuotaMap, p: QuotaPolicy, everyone: Quota, all: QuotaPolicy, room: RoomId, bytes: nat, nowMs: int)
    : (QuotaMap, Quota, bool)
  {
    var (charged, allowed) := ChargeRoom(m, p, room, bytes, nowMs);
    if !allowed then (charged, everyone, false)
    else
      var (total, ok) := ChargeTo(everyone, all, bytes, nowMs);
      (charged, total, ok)
  }

  /** What counts against the room at this moment. */
  function UsedNow(m: QuotaMap, p: QuotaPolicy, room: RoomId, nowMs: int): nat {
    Roll(QuotaOf(m, room, nowMs), p, nowMs).used
  }

  /** Whether a charge is within the limit of the window it falls in. */
  predicate Allows(q: Quota, p: QuotaPolicy, bytes: nat, nowMs: int) {
    (if Expired(q, p, nowMs) then 0 else q.used) + bytes <= p.limit
  }

  /**
   * A frame leaves more counted against its room although it was refused if and only if it is not
   * empty, the room's own quota allows it and the relay-wide one does not.
   */
  lemma RefusedYetChargedExactlyWhen(
    m: QuotaMap, p: QuotaPolicy, everyone: Quota, all: QuotaPolicy, room: RoomId, bytes: nat, nowMs: int)
    ensures var (after, total, ok) := ChargeBoth(m, p, everyone, all, room, bytes, nowMs);
            !ok && UsedNow(after, p, room, nowMs) > UsedNow(m, p, room, nowMs)
            <==> p.windowMs > 0 && bytes > 0
                 && Allows(QuotaOf(m, room, nowMs), p, bytes, nowMs) && !Allows(everyone, all, bytes, nowMs)
  {
  }

  /** One such frame: the relay's budget is spent, the room's is not. */
  lemma SpentBudgetChargesTheRoom(room: RoomId)
    ensures var p, all := QuotaPolicy(100, 1000), QuotaPolicy(50, 1000);
            var (after, total, ok) := ChargeBoth(map[], p, Quota(50, 0), all, room, 10, 1);
            !ok && UsedNow(after, p, room, 1) == 10 && total == Quota(50, 0)
  {
  }

  /**
   * A charge goes through exactly when what counts against the room leaves room for it within the limit;
   * then it counts, a refused one does not, and no other room's count changes.
   */
  lemma ChargedExactlyWhen(m: QuotaMap, p: QuotaPolicy, room: RoomId, bytes: nat, nowMs: int, other: RoomId, at: int)
    requires p.windowMs > 0
    ensures var (after, ok) := ChargeRoom(m, p, room, bytes, nowMs);
            && (ok <==> UsedNow(m, p, room, nowMs) + bytes <= p.limit)
            && UsedNow(after, p, room, nowMs) == UsedNow(m, p, room, nowMs) + (if ok then bytes else 0)
            && (other != room ==> UsedNow(after, p, other, at) == UsedNow(m, p, other, at))
  {
  }

  /** A frame gets through exactly when both its room's quota and the relay-wide one allow it. */
  lemma LetThroughExactlyWhen(
    m: QuotaMap, p: QuotaPolicy, everyone: Quota, all: QuotaPolicy, room: RoomId, bytes: nat, nowMs: int)
    ensures var (_, total, ok) := ChargeBoth(m, p, everyone, all, room, bytes, nowMs);
            && (ok <==> Allows(QuotaOf(m, room, nowMs), p, bytes, nowMs) && Allows(everyone, all, bytes, nowMs))
            && (all.windowMs > 0 ==>
                  Roll(total, all, nowMs).used == Roll(everyone, all, nowMs).used + if ok then bytes else 0)
  {
  }

  predicate Forgettable(m: QuotaMap, p: QuotaPolicy, room: RoomId, occupied: set<RoomId>, nowMs: int)
    requires room in m
  {
    Idle(m[room], p, nowMs) && room !in occupied
  }

  function ForgetIdle(m: QuotaMap, p: QuotaPolicy, occupied: set<RoomId>, nowMs: int): QuotaMap {
    map room | room in m && !Forgettable(m, p, room, occupied, nowMs) :: m[room]
  }

  /**
   * A sweep forgets exactly the rooms nobody is in against which nothing counts, and as long as the clock
   * does not go back nobody can tell: what counts against every room stays the same from then on.
   */
  lemma ForgetsExactlyTheUncounted(m: QuotaMap, p: QuotaPolicy, occupied: set<RoomId>, nowMs: int, room: RoomId, at: int)
    ensures var after := ForgetIdle(m, p, occupied, nowMs);
            && (room in after <==> room in m && (room in occupied || UsedNow(m, p, room, nowMs) > 0))
            && (nowMs <= at && (room in m ==> m[room].windowStartMs <= nowMs) ==>
                  UsedNow(after, p, room, at) == UsedNow(m, p, room, at))
  {
  }

  /** The maps `roomTransferQuotas` and the relay wide `globalTransferQuota`, with the sweeper. */
  class BulkBudget {
    var rooms: QuotaMap
    const roomPolicy: QuotaPolicy
    const everyone: RollingQuota

    constructor (roomPolicy: QuotaPolicy, everyone: RollingQuota)
      ensures this.roomPolicy == roomPolicy && this.everyone == everyone && rooms == map[]
    {
      this.roomPolicy := roomPolicy;
      this.everyone := everyone;
      rooms := map[];
    }

    /**
     * Two charges in a row, of which the second is tried only when the first was allowed. Nothing is
     * refunded when the second is refused.
     */
    method ChargeBulk(room: RoomId, bytes: nat, nowMs: int) returns (ok: bool)
      modifies this, everyone
      ensures (rooms, everyone.State(), ok)
              == ChargeBoth(old(rooms), roomPolicy, old(everyone.State()), everyone.Policy(), room, bytes, nowMs)
    {
      var quota := if room in rooms then rooms[room] else Quota(0, nowMs);
      var (charged, allowed) := ChargeTo(quota, roomPolicy, bytes, nowMs);
      rooms := rooms[room := charged];
      if !allowed {
        return false;
      }
      ok := everyone.Charge(bytes, nowMs);
    }

    method Sweep(occupied: set<RoomId>, nowMs: int)
      modifies this
      ensures rooms == ForgetIdle(old(rooms), roomPolicy, occupied, nowMs)
    {
      var unseen := rooms.Keys;
      while unseen != {}
        invariant unseen <= rooms.Keys <= old(rooms).Keys
        invariant forall r | r in rooms :: rooms[r] == old(rooms)[r]
        invariant forall r | r in old(rooms) && r !in unseen ::
            r in rooms <==> !Forgettable(old(rooms), roomPolicy, r, occupied, nowMs)
      {
        var room :| room in unseen;
        unseen := unseen - {room};
        if Idle(rooms[room], roomPolicy, nowMs) && room !in occupied {
          rooms := rooms - {room};
        }
      }
    }
  }

  // ------------------------------------------------------------------ every run of charges and sweeps

  datatype QuotaEvent =
    | Charge(room: RoomId, bytes: nat, at: int)
    | Sweep(occupied: set<RoomId>, at: int)

  function Handle(m: QuotaMap, p: QuotaPolicy, e: QuotaEvent): (QuotaMap, bool) {
    match e
    case Charge(room, bytes, at) => ChargeRoom(m, p, room, bytes, at)
    case Sweep(occupied, at) => (ForgetIdle(m, p, occupied, at), false)
  }

  /** The bytes `room` was charged at a time in `[from, from + span)`. */
  function ChargedWithin(m: QuotaMap, p: QuotaPolicy, room: RoomId, events: seq<QuotaEvent>, from: int, span: nat): nat
    decreases |events|
  {
    if events == [] then 0
    else
      var e := events[0];
      var (after, ok) := Handle(m, p, e);
      (if ok && e.Charge? && e.room == room && from <= e.at < from + span then e.bytes else 0)
      + ChargedWithin(after, p, room, events[1..], from, span)
  }

  predicate InOrder(sinceMs: int, events: seq<QuotaEvent>)
    decreases |events|
  {
    events != [] ==> sinceMs <= events[0].at && InOrder(events[0].at, events[1..])
  }

  // ---- the charges of one room, grouped by the quota window that took them

  datatype Window = Window(startMs: int, charges: seq<(int, nat)>)

  function Sum(charges: seq<(int, nat)>): nat {
    if charges == [] then 0 else Sum(charges[..|charges| - 1]) + charges[|charges| - 1].1
  }

  function SumWithin(charges: seq<(int, nat)>, from: int, span: nat): nat {
    if charges == [] then 0
    else
      var (at, bytes) := charges[|charges| - 1];
      SumWithin(charges[..|charges| - 1], from, span) + if from <= at < from + span then bytes else 0
  }

  function TotalWithin(ws: seq<Window>, from: int, span: nat): nat {
    if ws == [] then 0
    else TotalWithin(ws[..|ws| - 1], from, span) + SumWithin(ws[|ws| - 1].charges, from, span)
  }

  ghost predicate SoundWindow(w: Window, p: QuotaPolicy) {
    Sum(w.charges) <= p.limit
    && forall i | 0 <= i < |w.charges| :: w.startMs <= w.charges[i].0 < w.startMs + p.windowMs
  }

  ghost predicate Spaced(ws: seq<Window>, p: QuotaPolicy) {
    (forall i | 0 <= i < |ws| :: SoundWindow(ws[i], p))
    && (forall i, j | 0 <= i < j < |ws| :: ws[i].startMs + p.windowMs <= ws[j].startMs)
  }

  lemma SumWithinAtMostSum(charges: seq<(int, nat)>, from: int, span: nat)
    ensures SumWithin(charges, from, span) <= Sum(charges)
  {
  }

  lemma {:induction false} OutsideSpan(charges: seq<(int, nat)>, from: int, span: nat)
    requires forall i | 0 <= i < |charges| :: charges[i].0 < from || charges[i].0 >= from + span
    ensures SumWithin(charges, from, span) == 0
  {
    if charges != [] {
      OutsideSpan(charges[..|charges| - 1], from, span);
    }
  }

  /** When every window started before the span, only the last can reach into it. */
  lemma {:induction false} OnlyTheLastReaches(ws: seq<Window>, p: QuotaPolicy, from: int)
    requires Spaced(ws, p)
    requires forall i | 0 <= i < |ws| :: ws[i].startMs < from
    ensures TotalWithin(ws, from, p.windowMs) <= p.limit
  {
    if ws != [] {
      var last := |ws| - 1;
      SumWithinAtMostSum(ws[last].charges, from, p.windowMs);
      EarlierMiss(ws[..last], p, from, ws[last].startMs);
    }
  }

  lemma {:induction false} EarlierMiss(ws: seq<Window>, p: QuotaPolicy, from: int, nextStartMs: int)
    requires Spaced(ws, p) && nextStartMs < from
    requires forall i | 0 <= i < |ws| :: ws[i].startMs + p.windowMs <= nextStartMs
    ensures TotalWithin(ws, from, p.windowMs) == 0
  {
    if ws != [] {
      OutsideSpan(ws[|ws| - 1].charges, from, p.windowMs);
      EarlierMiss(ws[..|ws| - 1], p, from, nextStartMs);
    }
  }

  /** A span one window long meets at most two windows. */
  lemma {:induction false} AtMostTwoWindows(ws: seq<Window>, p: QuotaPolicy, from: int)
    requires Spaced(ws, p)
    ensures TotalWithin(ws, from, p.windowMs) <= 2 * p.limit
  {
    if ws != [] {
      var last := |ws| - 1;
      if ws[last].startMs < from + p.windowMs {
        SumWithinAtMostSum(ws[last].charges, from, p.windowMs);
        OnlyTheLastReaches(ws[..last], p, from);
      } else {
        OutsideSpan(ws[last].charges, from, p.windowMs);
        AtMostTwoWindows(ws[..last], p, from);
      }
    }
  }

  // ---- the windows a run fills

  /** Whether this event charges the room some bytes. */
  predicate Counts(m: QuotaMap, p: QuotaPolicy, room: RoomId, e: QuotaEvent) {
    e.Charge? && e.room == room && e.bytes > 0 && Handle(m, p, e).1
  }

  /** The windows of `room` after one more event, where `m` is the quota map before it. */
  ghost function Grow(m: QuotaMap, p: QuotaPolicy, room: RoomId, ws: seq<Window>, e: QuotaEvent): seq<Window> {
    if Counts(m, p, room, e) then
      var current := Roll(QuotaOf(m, room, e.at), p, e.at);
      if current.used == 0 || ws == [] then
        ws + [Window(current.windowStartMs, [(e.at, e.bytes)])]
      else
        var last := |ws| - 1;
        ws[last := ws[last].(charges := ws[last].charges + [(e.at, e.bytes)])]
    else ws
  }

  /** What ties the live quota of `room` to the windows it has filled, at a moment `nowMs`. */
  ghost predicate Tied(m: QuotaMap, p: QuotaPolicy, room: RoomId, ws: seq<Window>, nowMs: int) {
    Spaced(ws, p)
    && (room in m ==> m[room].windowStartMs <= nowMs)
    && (ws == [] ==> room in m ==> m[room].used == 0)
    && (ws != [] ==>
          var last := ws[|ws| - 1];
          if room !in m then last.startMs + p.windowMs <= nowMs
          else if m[room].used == 0 then last.startMs + p.windowMs <= m[room].windowStartMs
          else m[room] == Quota(Sum(last.charges), last.startMs))
  }

  lemma SpacedWithNew(ws: seq<Window>, p: QuotaPolicy, startMs: int, at: int, bytes: nat)
    requires Spaced(ws, p) && startMs <= at < startMs + p.windowMs && bytes <= p.limit
    requires ws != [] ==> ws[|ws| - 1].startMs + p.windowMs <= startMs
    ensures Spaced(ws + [Window(startMs, [(at, bytes)])], p)
    ensures Sum([(at, bytes)]) == bytes
  {
    var entry := [(at, bytes)];
    assert entry[..0] == [] && Sum(entry) == bytes;
    assert SoundWindow(Window(startMs, entry), p);
  }

  lemma SumWithMore(charges: seq<(int, nat)>, at: int, bytes: nat)
    ensures Sum(charges + [(at, bytes)]) == Sum(charges) + bytes
  {
    assert (charges + [(at, bytes)])[..|charges|] == charges;
  }

  lemma SoundWithMore(w: Window, p: QuotaPolicy, at: int, bytes: nat)
    requires SoundWindow(w, p) && w.startMs <= at < w.startMs + p.windowMs && Sum(w.charges) + bytes <= p.limit
    ensures SoundWindow(w.(charges := w.charges + [(at, bytes)]), p)
  {
    SumWithMore(w.charges, at, bytes);
  }

  lemma SpacedWithMore(ws: seq<Window>, p: QuotaPolicy, at: int, bytes: nat)
    requires Spaced(ws, p) && ws != []
    requires var last := ws[|ws| - 1];
             last.startMs <= at < last.startMs + p.windowMs && Sum(last.charges) + bytes <= p.limit
    ensures var last := ws[|ws| - 1];
            var more := last.(charges := last.charges + [(at, bytes)]);
            Spaced(ws[|ws| - 1 := more], p) && Sum(more.charges) == Sum(last.charges) + bytes
  {
    var last := ws[|ws| - 1];
    SumWithMore(last.charges, at, bytes);
    SoundWithMore(last, p, at, bytes);
    LastReplaced(ws, p, last.(charges := last.charges + [(at, bytes)]));
  }

  lemma LastReplaced(ws: seq<Window>, p: QuotaPolicy, w: Window)
    requires Spaced(ws, p) && ws != [] && SoundWindow(w, p) && w.startMs == ws[|ws| - 1].startMs
    ensures Spaced(ws[|ws| - 1 := w], p)
  {
    var after := ws[|ws| - 1 := w];
    assert forall i | 0 <= i < |ws| :: after[i].startMs == ws[i].startMs;
  }

  lemma TiedKept(m: QuotaMap, p: QuotaPolicy, room: RoomId, ws: seq<Window>, nowMs: int, e: QuotaEvent)
    requires p.windowMs > 0 && Tied(m, p, room, ws, nowMs) && nowMs <= e.at
    ensures Tied(Handle(m, p, e).0, p, room, Grow(m, p, room, ws, e), e.at)
  {
    if Counts(m, p, room, e) {
      var current := Roll(QuotaOf(m, room, e.at), p, e.at);
      if current.used == 0 || ws == [] {
        SpacedWithNew(ws, p, current.windowStartMs, e.at, e.bytes);
      } else {
        SpacedWithMore(ws, p, e.at, e.bytes);
      }
    }
  }

  lemma TotalAppend(ws: seq<Window>, w: Window, from: int, span: nat)
    ensures TotalWithin(ws + [w], from, span) == TotalWithin(ws, from, span) + SumWithin(w.charges, from, span)
  {
    assert (ws + [w])[..|ws|] == ws;
  }

  lemma SumAppend(charges: seq<(int, nat)>, at: int, bytes: nat, from: int, span: nat)
    ensures SumWithin(charges + [(at, bytes)], from, span)
            == SumWithin(charges, from, span) + if from <= at < from + span then bytes else 0
  {
    assert (charges + [(at, bytes)])[..|charges|] == charges;
  }

  lemma NewWindowAdds(ws: seq<Window>, startMs: int, at: int, bytes: nat, from: int, span: nat)
    ensures TotalWithin(ws + [Window(startMs, [(at, bytes)])], from, span)
            == TotalWithin(ws, from, span) + if from <= at < from + span then bytes else 0
  {
    var entry := [(at, bytes)];
    assert entry[..0] == [] && entry == [] + entry;
    SumAppend([], at, bytes, from, span);
    TotalAppend(ws, Window(startMs, entry), from, span);
  }

  lemma LongerWindowAdds(ws: seq<Window>, at: int, bytes: nat, from: int, span: nat)
    requires ws != []
    ensures var last := ws[|ws| - 1];
            TotalWithin(ws[|ws| - 1 := last.(charges := last.charges + [(at, bytes)])], from, span)
            == TotalWithin(ws, from, span) + if from <= at < from + span then bytes else 0
  {
    var rest, last := ws[..|ws| - 1], ws[|ws| - 1];
    var longer := last.(charges := last.charges + [(at, bytes)]);
    assert ws == rest + [last] && ws[|ws| - 1 := longer] == rest + [longer];
    SumAppend(last.charges, at, bytes, from, span);
    TotalAppend(rest, last, from, span);
    TotalAppend(rest, longer, from, span);
  }

  lemma GrowAddsTheCharge(m: QuotaMap, p: QuotaPolicy, room: RoomId, ws: seq<Window>, e: QuotaEvent, from: int, span: nat)
    ensures TotalWithin(Grow(m, p, room, ws, e), from, span) == TotalWithin(ws, from, span)
            + if Handle(m, p, e).1 && e.Charge? && e.room == room && from <= e.at < from + span then e.bytes else 0
  {
    if Counts(m, p, room, e) {
      var current := Roll(QuotaOf(m, room, e.at), p, e.at);
      if current.used == 0 || ws == [] {
        NewWindowAdds(ws, current.windowStartMs, e.at, e.bytes, from, span);
      } else {
        LongerWindowAdds(ws, e.at, e.bytes, from, span);
      }
    }
  }

  lemma {:induction false} ChargesFillWindows(m: QuotaMap, p: QuotaPolicy, room: RoomId, ws: seq<Window>, nowMs: int,
                                              events: seq<QuotaEvent>, from: int)
    requires p.windowMs > 0 && Tied(m, p, room, ws, nowMs) && InOrder(nowMs, events)
    ensures TotalWithin(ws, from, p.windowMs) + ChargedWithin(m, p, room, events, from, p.windowMs) <= 2 * p.limit
    decreases |events|
  {
    if events == [] {
      AtMostTwoWindows(ws, p, from);
    } else {
      var e := events[0];
      TiedKept(m, p, room, ws, nowMs, e);
      GrowAddsTheCharge(m, p, room, ws, e, from, p.windowMs);
      ChargesFillWindows(Handle(m, p, e).0, p, room, Grow(m, p, room, ws, e), e.at, events[1..], from);
    }
  }

  /**
   * With a clock that never goes back, a room is charged at most twice its limit in any half open
   * span one window long, although the sweeper forgets idle quotas and later charges bring them back.
   */
  lemma TwiceTheLimit(p: QuotaPolicy, room: RoomId, startMs: int, events: seq<QuotaEvent>, from: int)
    requires p.windowMs > 0 && InOrder(startMs, events)
    ensures ChargedWithin(map[], p, room, events, from, p.windowMs) <= 2 * p.limit
  {
    ChargesFillWindows(map[], p, room, [], startMs, events, from);
  }

  /** The bound is met up to one byte: the end of one window and the start of the next fit in one span. */
  lemma TwiceTheLimitIsReached(p: QuotaPolicy, room: RoomId)
    requires p.windowMs > 1 && p.limit > 0
    ensures exists events, from ::
              InOrder(0, events) && ChargedWithin(map[], p, room, events, from, p.windowMs) == 2 * p.limit - 1
  {
    var w: int := p.windowMs;
    var e0, e1, e2 := Charge(room, 1, 0), Charge(room, p.limit - 1, w - 1), Charge(room, p.limit, w);
    var events := [e0, e1, e2];
    var m1 := Handle(map[], p, e0).0;
    var m2 := Handle(m1, p, e1).0;
    assert [e1, e2][1..] == [e2];
    assert events[1..] == [e1, e2];
    assert InOrder(w - 1, [e2]);
    assert InOrder(0, [e1, e2]);
    assert InOrder(0, events);
    assert ChargedWithin(m2, p, room, [e2], 1, p.windowMs) == p.limit;
    assert ChargedWithin(m1, p, room, [e1, e2], 1, p.windowMs) == 2 * p.limit - 1;
    assert ChargedWithin(map[], p, room, events, 1, p.windowMs) == 2 * p.limit - 1;
  }

  // ------------------------------------------------------------------ the relay wide bulk budget

  /** The bytes `ChargeBulk` let through for anyone at a time in `[from, from + span)`. */
  function LetThroughWithin(m: QuotaMap, p: QuotaPolicy, everyone: Quota, all: QuotaPolicy,
                            events: seq<QuotaEvent>, from: int, span: nat): nat
    decreases |events|
  {
    if events == [] then 0
    else
      var e := events[0];
      var (after, allowed) := Handle(m, p, e);
      if !allowed then LetThroughWithin(after, p, everyone, all, events[1..], from, span)
      else
        var (charged, ok) := ChargeTo(everyone, all, e.bytes, e.at);
        (if ok && from <= e.at < from + span then e.bytes else 0)
        + LetThroughWithin(after, p, charged, all, events[1..], from, span)
  }

  lemma {:induction false} EveryoneFillsWindows(m: QuotaMap, p: QuotaPolicy, everyone: Quota, all: QuotaPolicy,
                                                ws: seq<Window>, nowMs: int, events: seq<QuotaEvent>, from: int)
    requires all.windowMs > 0 && Tied(map["" := everyone], all, "", ws, nowMs) && InOrder(nowMs, events)
    ensures TotalWithin(ws, from, all.windowMs)
            + LetThroughWithin(m, p, everyone, all, events, from, all.windowMs) <= 2 * all.limit
    decreases |events|
  {
    if events == [] {
      AtMostTwoWindows(ws, all, from);
    } else {
      var e := events[0];
      var (after, allowed) := Handle(m, p, e);
      if allowed {
        var one := map["" := everyone];
        var charge := Charge("", e.bytes, e.at);
        TiedKept(one, all, "", ws, nowMs, charge);
        GrowAddsTheCharge(one, all, "", ws, charge, from, all.windowMs);
        var charged := ChargeTo(everyone, all, e.bytes, e.at).0;
        assert one["" := charged] == map["" := charged];
        EveryoneFillsWindows(after, p, charged, all, Grow(one, all, "", ws, charge), e.at, events[1..], from);
      } else {
        EveryoneFillsWindows(after, p, everyone, all, ws, nowMs, events[1..], from);
      }
    }
  }

  /** All rooms together get at most twice the relay wide budget through in a span one window long. */
  lemma TwiceTheBudget(p: QuotaPolicy, all: QuotaPolicy, startMs: int, events: seq<QuotaEvent>, from: int)
    requires all.windowMs > 0 && InOrder(startMs, events)
    ensures LetThroughWithin(map[], p, Quota(0, startMs), all, events, from, all.windowMs) <= 2 * all.limit
  {
    EveryoneFillsWindows(map[], p, Quota(0, startMs), all, [], startMs, events, from);
  }
}
