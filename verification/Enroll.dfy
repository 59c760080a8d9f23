/**
 * Joining by code, crates/asli-app/src/enroll.rs: one invitation, any number of new devices, a relay
 * that may drop, repeat and reorder what either side sends, and the local network beside it.
 *
 * A grant is an ideal token: it opens only for the request id and the key it was made for, and only
 * the approving device makes one. Anyone who holds the code can ask, with any id, key and name.
 */
module Enroll {
  import opened Options

  type Id = nat
  type Key = nat

  datatype Request = Request(id: Id, key: Key, name: string)

  datatype Body = Grant(forId: Id, forKey: Key, secret: nat) | Refusal(forId: Id)

  datatype InviteOutcome = Approved(name: string) | Declined | Expired | Failed

  datatype Command = Approve(id: Id) | Decline(id: Id)

  datatype Chosen = Chosen(body: Body, outcome: InviteOutcome)

  const MAX_REQUESTS: nat := 8

  /** The state of one invitation that several threads see. */
  datatype Book = Book(requests: seq<Request>, answer: Option<Chosen>, confirmed: bool, failed: bool)

  function Empty(): Book {
    Book([], None, false, false)
  }

  /** The first recorded request with this id. */
  function Find(requests: seq<Request>, id: Id): (r: Option<Request>)
    ensures r.Some? ==> r.value in requests && r.value.id == id
    ensures r.None? ==> forall known | known in requests :: known.id != id
  {
    if requests == [] then None
    else if requests[0].id == id then Some(requests[0])
    else Find(requests[1..], id)
  }

  function Taken(b: Book, r: Request): Book {
    if b.answer.Some? || |b.requests| >= MAX_REQUESTS || Find(b.requests, r.id).Some? then b
    else b.(requests := b.requests + [r])
  }

  /** `made` is whether the answer's body could be made at all. */
  function Decided(b: Book, c: Command, secret: nat, made: bool): (Book, Option<Body>) {
    if b.answer.Some? then (b, None)
    else
      match c
      case Approve(id) =>
        var request := Find(b.requests, id);
        if request.None? then (b, None)
        else if !made then (b.(failed := true), None)
        else
          var body := Grant(id, request.value.key, secret);
          (b.(answer := Some(Chosen(body, Approved(request.value.name)))), Some(body))
      case Decline(id) =>
        if !made then (b.(failed := true), None)
        else (b.(answer := Some(Chosen(Refusal(id), Declined))), Some(Refusal(id)))
  }

  function SettledAs(b: Book): Option<InviteOutcome> {
    if b.failed then Some(Failed)
    else if b.confirmed && b.answer.Some? then Some(b.answer.value.outcome)
    else None
  }

  class Shared {
    var requests: seq<Request>
    var answer: Option<Chosen>
    var confirmed: bool
    var failed: bool

    function State(): Book
      reads this
    {
      Book(requests, answer, confirmed, failed)
    }

    constructor ()
      ensures State() == Empty()
    {
      requests, answer, confirmed, failed := [], None, false, false;
    }

    /** Looks a request up as the source does, one after another. */
    method Lookup(id: Id) returns (r: Option<Request>)
      ensures r == Find(requests, id)
    {
      var i := 0;
      while i < |requests|
        invariant 0 <= i <= |requests|
        invariant Find(requests, id) == Find(requests[i..], id)
      {
        if requests[i].id == id {
          return Some(requests[i]);
        }
        i := i + 1;
      }
      return None;
    }

    /** Adds the request, unless an answer, a full list or its own id stands in the way. */
    method TakeRequest(r: Request)
      modifies this
      ensures State() == Taken(old(State()), r)
    {
      if answer.Some? || |requests| >= MAX_REQUESTS {
        return;
      }
      var known := Lookup(r.id);
      if known.Some? {
        return;
      }
      requests := requests + [r];
    }

    /** Fixes the answer, if none is fixed yet and it can be made, and hands out its body to send. */
    method Decide(c: Command, secret: nat, made: bool) returns (body: Option<Body>)
      modifies this
      ensures (State(), body) == Decided(old(State()), c, secret, made)
    {
      if answer.Some? {
        return None;
      }
      match c
      case Approve(id) =>
        var request := Lookup(id);
        if request.None? {
          return None;
        }
        if !made {
          failed := true;
          return None;
        }
        var grant := Grant(id, request.value.key, secret);
        answer := Some(Chosen(grant, Approved(request.value.name)));
        return Some(grant);
      case Decline(id) =>
        if !made {
          failed := true;
          return None;
        }
        answer := Some(Chosen(Refusal(id), Declined));
        return Some(Refusal(id));
    }

    method Confirm()
      modifies this
      ensures State() == old(State()).(confirmed := true)
    {
      confirmed := true;
    }

    method Settled() returns (outcome: Option<InviteOutcome>)
      ensures outcome == SettledAs(State())
    {
      if failed {
        return Some(Failed);
      }
      if confirmed {
        if answer.Some? {
          return Some(answer.value.outcome);
        }
      }
      return None;
    }
  }

  // ------------------------------------------------------------------ the new device

  datatype JoinOutcome = Granted(secret: nat) | TurnedDown | GaveUp

  /** One attempt to join: `slot` holds an answer from the local network until it is read. */
  datatype Joiner = Joiner(request: Request, slot: Option<Body>, outcome: Option<JoinOutcome>)

  /** The outcome a body has for one request, if it was made for that one. */
  function Judged(request: Request, body: Body): Option<JoinOutcome> {
    match body
    case Grant(forId, forKey, secret) =>
      if forId == request.id && forKey == request.key then Some(Granted(secret)) else None
    case Refusal(forId) => if forId == request.id then Some(TurnedDown) else None
  }

  /** The first outcome found stays. */
  function Answered(j: Joiner, body: Body): Joiner {
    if j.outcome.None? && Judged(j.request, body).Some? then j.(outcome := Judged(j.request, body)) else j
  }

  function ReadSlot(j: Joiner): Joiner {
    match j.slot
    case None => j
    case Some(body) => Answered(j.(slot := None), body)
  }

  class Attempt {
    const request: Request
    var slot: Option<Body>
    var outcome: Option<JoinOutcome>

    function State(): Joiner
      reads this
    {
      Joiner(request, slot, outcome)
    }

    constructor (request: Request)
      ensures State() == Joiner(request, None, None)
    {
      this.request := request;
      slot, outcome := None, None;
    }

    /** An answer from the relay. */
    method OnAnswer(body: Body)
      modifies this
      ensures State() == Answered(old(State()), body)
    {
      var found := Judged(request, body);
      if found.Some? {
        if outcome.None? {
          outcome := found;
        }
      }
    }

    /** An answer the local network's thread left. */
    method TakeNearbyAnswer()
      modifies this
      ensures State() == ReadSlot(old(State()))
    {
      var waiting := slot;
      slot := None;
      if waiting.Some? {
        OnAnswer(waiting.value);
      }
    }
  }

  // ------------------------------------------------------------------ everything together

  /**
   * `relayed` is every copy of an answer the invitation put on the relay and `nearby` every one it
   * wrote to a local connection, in order. Delivering is picking one of them, any number of times.
   */
  datatype World = World(
    nearbyOnly: bool,
    secret: nat,
    book: Book,
    ended: Option<InviteOutcome>,
    relayed: seq<Body>,
    nearby: seq<Body>,
    joiners: seq<Joiner>)

  datatype Event =
    | RelayRequest(request: Request)
    | NearbyRequest(request: Request)
    | Decision(command: Command, made: bool)
    | Reconnected
    | NearbyAnswers
    | RelayRead
    | Ends
    | RunsOut
    | StartsJoining(request: Request)
    | RelayDelivers(joiner: nat, copy: nat)
    | NearbyDelivers(joiner: nat, copy: nat)
    | ReadsNearby(joiner: nat)
    | GivesUp(joiner: nat)

  function Open(nearbyOnly: bool, secret: nat): World {
    World(nearbyOnly, secret, Empty(), None, [], [], [])
  }

  function WithJoiner(w: World, i: nat, j: Joiner): World
    requires i < |w.joiners|
  {
    w.(joiners := w.joiners[i := j])
  }

  /** The invitation's side of a step. Its thread does nothing more once it has ended. */
  function InviteStep(w: World, e: Event): World {
    match e
    case RelayRequest(r) => if w.nearbyOnly || w.ended.Some? then w else w.(book := Taken(w.book, r))
    case NearbyRequest(r) => if !w.nearbyOnly then w else w.(book := Taken(w.book, r))
    case Decision(c, made) =>
      if w.ended.Some? || w.book.failed then w
      else
        var (book, body) := Decided(w.book, c, w.secret, made);
        w.(book := book, relayed := if body.Some? then w.relayed + [body.value] else w.relayed)
    case Reconnected =>
      if w.ended.Some? || w.book.answer.None? then w
      else w.(relayed := w.relayed + [w.book.answer.value.body])
    case NearbyAnswers =>
      if !w.nearbyOnly || w.book.answer.None? then w
      else w.(nearby := w.nearby + [w.book.answer.value.body])
    case RelayRead => if w.ended.Some? || w.relayed == [] then w else w.(book := w.book.(confirmed := true))
    case Ends => if w.ended.Some? then w else w.(ended := SettledAs(w.book))
    case RunsOut => if w.ended.Some? || SettledAs(w.book).Some? then w else w.(ended := Some(Expired))
    case _ => w
  }

  /** The new devices' side. */
  function JoinStep(w: World, e: Event): World {
    match e
    case StartsJoining(r) => w.(joiners := w.joiners + [Joiner(r, None, None)])
    case RelayDelivers(i, k) =>
      if i >= |w.joiners| || k >= |w.relayed| then w
      else WithJoiner(w, i, Answered(w.joiners[i], w.relayed[k]))
    case NearbyDelivers(i, k) =>
      if i >= |w.joiners| || k >= |w.nearby| then w
      else WithJoiner(w, i, w.joiners[i].(slot := Some(w.nearby[k])))
    case ReadsNearby(i) =>
      if i >= |w.joiners| then w else WithJoiner(w, i, ReadSlot(w.joiners[i]))
    case GivesUp(i) =>
      if i >= |w.joiners| || w.joiners[i].outcome.Some? then w
      else WithJoiner(w, i, w.joiners[i].(outcome := Some(GaveUp)))
    case _ => w
  }

  function Step(w: World, e: Event): World {
    JoinStep(InviteStep(w, e), e)
  }

  function Run(w: World, events: seq<Event>): World {
    if events == [] then w else Step(Run(w, events[..|events| - 1]), events[|events| - 1])
  }

  // ------------------------------------------------------------------ what always holds

  ghost predicate SoundBook(b: Book, secret: nat) {
    && |b.requests| <= MAX_REQUESTS
    && (forall i, j | 0 <= i < j < |b.requests| :: b.requests[i].id != b.requests[j].id)
    && (b.answer.Some? ==> SoundAnswer(b.requests, b.answer.value, secret))
    && (b.failed ==> b.answer.None?)
  }

  /** An approval names a recorded request and is made for its key; a refusal may name any id. */
  ghost predicate SoundAnswer(requests: seq<Request>, a: Chosen, secret: nat) {
    match a.body
    case Grant(id, key, s) =>
      s == secret && exists r | r in requests :: r.id == id && r.key == key && a.outcome == Approved(r.name)
    case Refusal(_) => a.outcome == Declined
  }

  ghost predicate IsTheAnswer(b: Book, body: Body) {
    b.answer.Some? && b.answer.value.body == body
  }

  /** What a new device holds is the invitation's one answer, and an outcome is that answer judged. */
  ghost predicate SoundJoiner(b: Book, j: Joiner) {
    && (j.slot.Some? ==> IsTheAnswer(b, j.slot.value))
    && (j.outcome.Some? && j.outcome.value != GaveUp ==>
          b.answer.Some? && j.outcome == Judged(j.request, b.answer.value.body))
  }

  ghost predicate SoundEnd(w: World) {
    && (w.book.answer.Some? ==> w.relayed != [])
    && (w.book.confirmed ==> w.book.answer.Some?)
    && (w.ended.Some? ==> w.ended.value == Expired || w.ended == SettledAs(w.book))
  }

  ghost predicate Sound(w: World) {
    && SoundBook(w.book, w.secret)
    && (forall k | 0 <= k < |w.relayed| :: IsTheAnswer(w.book, w.relayed[k]))
    && (forall k | 0 <= k < |w.nearby| :: IsTheAnswer(w.book, w.nearby[k]))
    && (forall i | 0 <= i < |w.joiners| :: SoundJoiner(w.book, w.joiners[i]))
    && SoundEnd(w)
  }

  lemma TakenKeeps(b: Book, r: Request, secret: nat)
    requires SoundBook(b, secret)
    ensures SoundBook(Taken(b, r), secret) && Taken(b, r).answer == b.answer
    ensures SettledAs(Taken(b, r)) == SettledAs(b)
  {
    var known := Find(b.requests, r.id);
    assert forall i | 0 <= i < |b.requests| :: b.requests[i] in b.requests;
  }

  lemma DecidedKeeps(b: Book, c: Command, secret: nat, made: bool)
    requires SoundBook(b, secret) && !b.failed
    ensures var (after, body) := Decided(b, c, secret, made);
            && SoundBook(after, secret)
            && (b.answer.Some? ==> after == b)
            && (body.Some? ==> IsTheAnswer(after, body.value))
            && after.requests == b.requests && after.confirmed == b.confirmed
  {
  }

  lemma InviteStepKeeps(w: World, e: Event)
    requires Sound(w)
    ensures Sound(InviteStep(w, e))
  {
    match e
    case RelayRequest(r) => TakenKeeps(w.book, r, w.secret);
    case NearbyRequest(r) => TakenKeeps(w.book, r, w.secret);
    case Decision(c, made) =>
      if w.ended.None? && !w.book.failed {
        DecidedKeeps(w.book, c, w.secret, made);
      }
    case RelayRead => assert w.relayed != [] ==> IsTheAnswer(w.book, w.relayed[0]);
    case _ =>
  }

  lemma AnsweredKeeps(b: Book, j: Joiner, body: Body)
    requires SoundJoiner(b, j) && IsTheAnswer(b, body)
    ensures SoundJoiner(b, Answered(j, body))
  {
  }

  lemma JoinStepKeeps(w: World, e: Event)
    requires Sound(w)
    ensures Sound(JoinStep(w, e))
  {
    match e
    case RelayDelivers(i, k) =>
      if i < |w.joiners| && k < |w.relayed| {
        AnsweredKeeps(w.book, w.joiners[i], w.relayed[k]);
      }
    case ReadsNearby(i) =>
      if i < |w.joiners| && w.joiners[i].slot.Some? {
        AnsweredKeeps(w.book, w.joiners[i].(slot := None), w.joiners[i].slot.value);
      }
    case _ =>
  }

  lemma {:induction false} RunKeeps(nearbyOnly: bool, secret: nat, events: seq<Event>)
    ensures Sound(Run(Open(nearbyOnly, secret), events))
  {
    if events != [] {
      RunKeeps(nearbyOnly, secret, events[..|events| - 1]);
      var before := Run(Open(nearbyOnly, secret), events[..|events| - 1]);
      InviteStepKeeps(before, events[|events| - 1]);
      JoinStepKeeps(InviteStep(before, events[|events| - 1]), events[|events| - 1]);
    }
  }

  // ------------------------------------------------------------------ what happened before

  /** The way a request must come for this invitation to take it. */
  function Arrival(nearbyOnly: bool, r: Request): Event {
    if nearbyOnly then NearbyRequest(r) else RelayRequest(r)
  }

  /** Recorded requests arrived, and what was answered was decided. */
  ghost predicate Accounted(w: World, events: seq<Event>) {
    && (forall r | r in w.book.requests :: Arrival(w.nearbyOnly, r) in events)
    && (w.book.answer.Some? ==>
          match w.book.answer.value.body
          case Grant(id, _, _) => Decision(Approve(id), true) in events
          case Refusal(id) => Decision(Decline(id), true) in events)
  }

  lemma StepAccounts(w: World, before: seq<Event>, e: Event)
    requires Accounted(w, before)
    ensures Accounted(Step(w, e), before + [e]) && Step(w, e).nearbyOnly == w.nearbyOnly
    ensures Step(w, e).secret == w.secret
  {
    var book := InviteStep(w, e).book;
    assert Step(w, e).book == book;
    forall r | r in book.requests
      ensures Arrival(w.nearbyOnly, r) in before + [e]
    {
      if r !in w.book.requests {
        assert e == Arrival(w.nearbyOnly, r);
      }
    }
  }

  lemma {:induction false} RunAccounts(nearbyOnly: bool, secret: nat, events: seq<Event>)
    ensures var w := Run(Open(nearbyOnly, secret), events);
            Accounted(w, events) && w.nearbyOnly == nearbyOnly && w.secret == secret
  {
    if events != [] {
      var before := events[..|events| - 1];
      RunAccounts(nearbyOnly, secret, before);
      StepAccounts(Run(Open(nearbyOnly, secret), before), before, events[|events| - 1]);
      assert before + [events[|events| - 1]] == events;
    }
  }

  // ------------------------------------------------------------------ what an invitation promises

  /** One invitation gives one answer: every copy it sends, by either way, is the same. */
  lemma OneAnswer(nearbyOnly: bool, secret: nat, events: seq<Event>, a: Body, b: Body)
    requires var w := Run(Open(nearbyOnly, secret), events);
             a in w.relayed + w.nearby && b in w.relayed + w.nearby
    ensures a == b
  {
    RunKeeps(nearbyOnly, secret, events);
  }

  lemma StepKeepsAnswer(w: World, e: Event)
    requires w.book.answer.Some?
    ensures Step(w, e).book.answer == w.book.answer && Step(w, e).book.requests == w.book.requests
  {
  }

  /** Once given it stays: nothing that comes later changes the answer or adds a request. */
  lemma {:induction false} AnswerStays(w: World, events: seq<Event>)
    requires w.book.answer.Some?
    ensures Run(w, events).book.answer == w.book.answer && Run(w, events).book.requests == w.book.requests
  {
    if events != [] {
      AnswerStays(w, events[..|events| - 1]);
      StepKeepsAnswer(Run(w, events[..|events| - 1]), events[|events| - 1]);
    }
  }

  /** Two new devices that both end with an answer asked under the same id, and both got that answer. */
  lemma OneDeviceIsAnswered(nearbyOnly: bool, secret: nat, events: seq<Event>, i: nat, j: nat)
    requires var w := Run(Open(nearbyOnly, secret), events);
             && i < |w.joiners| && j < |w.joiners|
             && w.joiners[i].outcome.Some? && w.joiners[i].outcome.value != GaveUp
             && w.joiners[j].outcome.Some? && w.joiners[j].outcome.value != GaveUp
    ensures var w := Run(Open(nearbyOnly, secret), events);
            && w.joiners[i].request.id == w.joiners[j].request.id
            && w.joiners[i].outcome == w.joiners[j].outcome
            && (w.joiners[i].outcome.value.Granted? ==> w.joiners[i].request.key == w.joiners[j].request.key)
  {
    RunKeeps(nearbyOnly, secret, events);
    var w := Run(Open(nearbyOnly, secret), events);
    assert SoundJoiner(w.book, w.joiners[i]) && SoundJoiner(w.book, w.joiners[j]);
  }

  /**
   * A device that was granted the account key asked with an id and key the invitation recorded, by
   * the only way it takes requests, and the person approved that id.
   */
  lemma GrantedMeansAskedAndApproved(nearbyOnly: bool, secret: nat, events: seq<Event>, i: nat) returns (r: Request)
    requires var w := Run(Open(nearbyOnly, secret), events);
             i < |w.joiners| && w.joiners[i].outcome.Some? && w.joiners[i].outcome.value.Granted?
    ensures var w := Run(Open(nearbyOnly, secret), events);
            var j := w.joiners[i];
            && j.outcome == Some(Granted(secret))
            && r in w.book.requests && r.id == j.request.id && r.key == j.request.key
            && Arrival(nearbyOnly, r) in events && Decision(Approve(r.id), true) in events
            && w.book.answer == Some(Chosen(Grant(r.id, r.key, secret), Approved(r.name)))
            && (w.ended.None? || w.ended == Some(Expired) || w.ended == Some(Approved(r.name)))
  {
    RunKeeps(nearbyOnly, secret, events);
    RunAccounts(nearbyOnly, secret, events);
    var w := Run(Open(nearbyOnly, secret), events);
    assert SoundJoiner(w.book, w.joiners[i]);
    var a := w.book.answer.value;
    r :| r in w.book.requests && r.id == a.body.forId && r.key == a.body.forKey && a.outcome == Approved(r.name);
  }

  /** The invitation says a device was approved only for a grant the relay read, made for a recorded request of that name. */
  lemma ApprovedMeansConfirmed(nearbyOnly: bool, secret: nat, events: seq<Event>, name: string) returns (r: Request)
    requires Run(Open(nearbyOnly, secret), events).ended == Some(Approved(name))
    ensures var w := Run(Open(nearbyOnly, secret), events);
            && w.book.confirmed && Grant(r.id, r.key, secret) in w.relayed
            && r in w.book.requests && r.name == name
            && Decision(Approve(r.id), true) in events
  {
    RunKeeps(nearbyOnly, secret, events);
    RunAccounts(nearbyOnly, secret, events);
    var w := Run(Open(nearbyOnly, secret), events);
    var a := w.book.answer.value;
    assert IsTheAnswer(w.book, w.relayed[0]);
    r :| r in w.book.requests && r.id == a.body.forId && r.key == a.body.forKey && a.outcome == Approved(r.name);
  }

  /** A code collects at most eight requests, no two with the same id. */
  lemma RequestsAreFewAndDistinct(nearbyOnly: bool, secret: nat, events: seq<Event>)
    ensures var requests := Run(Open(nearbyOnly, secret), events).book.requests;
            && |requests| <= MAX_REQUESTS
            && forall i, j | 0 <= i < j < |requests| :: requests[i].id != requests[j].id
  {
    RunKeeps(nearbyOnly, secret, events);
  }

  // ------------------------------------------------------------------ what an expired invitation may have done

  lemma {:induction false} SoundStays(w: World, more: seq<Event>)
    requires Sound(w)
    ensures Sound(Run(w, more))
  {
    if more != [] {
      var e := more[|more| - 1];
      SoundStays(w, more[..|more| - 1]);
      var before := Run(w, more[..|more| - 1]);
      InviteStepKeeps(before, e);
      JoinStepKeeps(InviteStep(before, e), e);
    }
  }

  lemma EndedStep(w: World, e: Event)
    requires w.ended.Some?
    ensures Step(w, e).ended == w.ended && Step(w, e).book.answer == w.book.answer
  {
  }

  /** An invitation that has ended decides nothing any more. */
  lemma {:induction false} EndedStays(w: World, more: seq<Event>)
    requires w.ended.Some?
    ensures Run(w, more).ended == w.ended && Run(w, more).book.answer == w.book.answer
  {
    if more != [] {
      EndedStays(w, more[..|more| - 1]);
      EndedStep(Run(w, more[..|more| - 1]), more[|more| - 1]);
    }
  }

  ghost predicate SomeoneGranted(w: World) {
    exists i | 0 <= i < |w.joiners| :: w.joiners[i].outcome.Some? && w.joiners[i].outcome.value.Granted?
  }

  /** Some way things may go on ends with a device that was granted the account key. */
  ghost predicate MayGrant(w: World) {
    exists more: seq<Event> :: SomeoneGranted(Run(w, more))
  }

  lemma OnlyAGrantGrants(w: World)
    requires Sound(w) && SomeoneGranted(w)
    ensures w.book.answer.Some? && w.book.answer.value.body.Grant?
  {
    var i :| 0 <= i < |w.joiners| && w.joiners[i].outcome.Some? && w.joiners[i].outcome.value.Granted?;
    assert SoundJoiner(w.book, w.joiners[i]);
  }

  lemma FirstCopyDelivered(w: World, r: Request, body: Body)
    requires w.relayed != [] && w.relayed[0] == body && body.Grant? && body.forId == r.id && body.forKey == r.key
    ensures SomeoneGranted(Step(Step(w, StartsJoining(r)), RelayDelivers(|w.joiners|, 0)))
  {
    var n := |w.joiners|;
    var asked := Step(w, StartsJoining(r));
    assert asked == w.(joiners := w.joiners + [Joiner(r, None, None)]);
    var after := Step(asked, RelayDelivers(n, 0));
    assert after.joiners == asked.joiners[n := Answered(asked.joiners[n], body)];
    assert after.joiners[n].outcome == Some(Granted(body.secret));
  }

  /** A relayed grant is still there to be delivered to the device it was made for. */
  lemma GrantIsDelivered(w: World)
    requires Sound(w) && w.book.answer.Some? && w.book.answer.value.body.Grant?
    ensures MayGrant(w)
  {
    var body := w.book.answer.value.body;
    var r := Request(body.forId, body.forKey, "");
    var asks, delivers := StartsJoining(r), RelayDelivers(|w.joiners|, 0);
    assert w.relayed[0] == body by {
      assert IsTheAnswer(w.book, w.relayed[0]);
    }
    FirstCopyDelivered(w, r, body);
    RunMore(w, [], asks);
    RunMore(w, [] + [asks], delivers);
    assert SomeoneGranted(Run(w, [] + [asks] + [delivers]));
  }

  /**
   * Over every run, an invitation that ended as expired may still have granted, or yet come to grant,
   * if and only if its recorded answer is a grant.
   */
  lemma ExpiredGrantsExactlyWhen(nearbyOnly: bool, secret: nat, events: seq<Event>)
    requires Run(Open(nearbyOnly, secret), events).ended == Some(Expired)
    ensures var w := Run(Open(nearbyOnly, secret), events);
            MayGrant(w) <==> w.book.answer.Some? && w.book.answer.value.body.Grant?
  {
    RunKeeps(nearbyOnly, secret, events);
    var w := Run(Open(nearbyOnly, secret), events);
    if MayGrant(w) {
      var more: seq<Event> :| SomeoneGranted(Run(w, more));
      SoundStays(w, more);
      EndedStays(w, more);
      OnlyAGrantGrants(Run(w, more));
    }
    if w.book.answer.Some? && w.book.answer.value.body.Grant? {
      GrantIsDelivered(w);
    }
  }

  lemma RunMore(w: World, events: seq<Event>, e: Event)
    ensures Run(w, events + [e]) == Step(Run(w, events), e)
  {
    assert (events + [e])[..|events|] == events;
  }

  /** An expired invitation may still have granted: the answer went out and was not confirmed in time. */
  lemma ExpiredAndGranted() returns (events: seq<Event>)
    ensures var w := Run(Open(false, 7), events);
            w.ended == Some(Expired) && |w.joiners| == 1 && w.joiners[0].outcome == Some(Granted(7))
  {
    var r := Request(1, 2, "laptop");
    var e0, e1, e2, e3, e4 :=
      StartsJoining(r), RelayRequest(r), Decision(Approve(1), true), RelayDelivers(0, 0), RunsOut;
    var w := Open(false, 7);
    RunMore(w, [], e0);
    var run1 := [] + [e0];
    assert Run(w, run1).joiners == [Joiner(r, None, None)];
    RunMore(w, run1, e1);
    var run2 := run1 + [e1];
    assert Run(w, run2).book.requests == [r];
    RunMore(w, run2, e2);
    var run3 := run2 + [e2];
    assert Run(w, run3).relayed == [Grant(1, 2, 7)];
    RunMore(w, run3, e3);
    RunMore(w, run3 + [e3], e4);
    events := run3 + [e3] + [e4];
  }
}
