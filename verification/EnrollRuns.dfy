/**
 * What comes of every request, decision and copy of an answer, crates/asli-app/src/enroll.rs, over every
 * run of one invitation with any number of new devices.
 */
module EnrollRuns {
  import opened Options
  import opened Enroll

  ghost predicate Recorded(requests: seq<Request>, id: Id) {
    exists r :: r in requests && r.id == id
  }

  // ------------------------------------------------------------------ what each step does, by where things stand

  /** The invitation is open, and nobody was answered and no answer failed. */
  predicate Undecided(w: World) {
    w.ended.None? && !w.book.failed && w.book.answer.None?
  }

  /** A decision about somebody who can be decided about. An approval needs a recorded request. */
  ghost predicate Decides(w: World, e: Event) {
    e.Decision? && Undecided(w) && (e.command.Approve? ==> Recorded(w.book.requests, e.command.id))
  }

  /** The request this event adds to the list. */
  ghost predicate Takes(w: World, e: Event, r: Request) {
    && e == Arrival(w.nearbyOnly, r) && (w.nearbyOnly || w.ended.None?)
    && w.book.answer.None? && |w.book.requests| < MAX_REQUESTS && !Recorded(w.book.requests, r.id)
  }

  // ------------------------------------------------------------------ the same, from the run

  ghost function After(nearbyOnly: bool, secret: nat, events: seq<Event>): World {
    Run(Open(nearbyOnly, secret), events)
  }

  /** The answer this decision is. */
  ghost function AnswerTo(w: World, c: Command): Chosen
    requires c.Approve? ==> Recorded(w.book.requests, c.id)
  {
    match c
    case Decline(id) => Chosen(Refusal(id), Declined)
    case Approve(id) =>
      var r :| r in w.book.requests && r.id == id;
      Chosen(Grant(id, r.key, w.secret), Approved(r.name))
  }

  /** The answer of the decision that could be made, if there was one. */
  ghost function AnswerBy(nearbyOnly: bool, secret: nat, events: seq<Event>): Option<Chosen> {
    if events == [] then None
    else
      var init, e := events[..|events| - 1], events[|events| - 1];
      var w := After(nearbyOnly, secret, init);
      if Decides(w, e) && e.made then Some(AnswerTo(w, e.command)) else AnswerBy(nearbyOnly, secret, init)
  }

  /** Whether there was a decision whose answer could not be made. */
  ghost predicate Broke(nearbyOnly: bool, secret: nat, events: seq<Event>) {
    events != []
    && var init, e := events[..|events| - 1], events[|events| - 1];
       (Decides(After(nearbyOnly, secret, init), e) && !e.made) || Broke(nearbyOnly, secret, init)
  }

  ghost function RequestsBy(nearbyOnly: bool, secret: nat, events: seq<Event>): seq<Request> {
    if events == [] then []
    else
      var init, e := events[..|events| - 1], events[|events| - 1];
      RequestsBy(nearbyOnly, secret, init)
      + if (e.RelayRequest? || e.NearbyRequest?) && Takes(After(nearbyOnly, secret, init), e, e.request) then [e.request] else []
  }

  /** Every copy put on the relay: one with the decision, and one each time it is reached again while open. */
  ghost function RelayedBy(nearbyOnly: bool, secret: nat, events: seq<Event>): seq<Body> {
    if events == [] then []
    else
      var init, e := events[..|events| - 1], events[|events| - 1];
      var w := After(nearbyOnly, secret, init);
      RelayedBy(nearbyOnly, secret, init)
      + if Decides(w, e) && e.made then [AnswerTo(w, e.command).body]
        else if e.Reconnected? && w.ended.None? && AnswerBy(nearbyOnly, secret, init).Some? then
          [AnswerBy(nearbyOnly, secret, init).value.body]
        else []
  }

  /** Every copy written to a local connection. */
  ghost function NearbyBy(nearbyOnly: bool, secret: nat, events: seq<Event>): seq<Body> {
    if events == [] then []
    else
      var init, e := events[..|events| - 1], events[|events| - 1];
      NearbyBy(nearbyOnly, secret, init)
      + if e.NearbyAnswers? && nearbyOnly && AnswerBy(nearbyOnly, secret, init).Some? then
          [AnswerBy(nearbyOnly, secret, init).value.body]
        else []
  }

  /** The relay read a copy while the invitation was open. */
  ghost predicate Confirmed(nearbyOnly: bool, secret: nat, events: seq<Event>) {
    events != []
    && var init, e := events[..|events| - 1], events[|events| - 1];
       (e.RelayRead? && After(nearbyOnly, secret, init).ended.None? && RelayedBy(nearbyOnly, secret, init) != [])
       || Confirmed(nearbyOnly, secret, init)
  }

  /** How an invitation that looks at how things stand would end. */
  ghost function OutcomeBy(nearbyOnly: bool, secret: nat, events: seq<Event>): Option<InviteOutcome> {
    if Broke(nearbyOnly, secret, events) then Some(Failed)
    else if Confirmed(nearbyOnly, secret, events) && AnswerBy(nearbyOnly, secret, events).Some? then
      Some(AnswerBy(nearbyOnly, secret, events).value.outcome)
    else None
  }

  /** How it did end: the first time it looked and there was an outcome, or its time was up and there was none. */
  ghost function EndedBy(nearbyOnly: bool, secret: nat, events: seq<Event>): Option<InviteOutcome> {
    if events == [] then None
    else
      var init, e := events[..|events| - 1], events[|events| - 1];
      var before, outcome := EndedBy(nearbyOnly, secret, init), OutcomeBy(nearbyOnly, secret, init);
      if before.Some? then before
      else if e.Ends? then outcome
      else if e.RunsOut? && outcome.None? then Some(Expired)
      else None
  }

  /** Everything the invitation's side holds is what the run says. */
  ghost predicate Told(nearbyOnly: bool, secret: nat, events: seq<Event>) {
    var w := After(nearbyOnly, secret, events);
    && w.nearbyOnly == nearbyOnly && w.secret == secret
    && w.book.answer == AnswerBy(nearbyOnly, secret, events)
    && (w.book.failed <==> Broke(nearbyOnly, secret, events))
    && w.book.requests == RequestsBy(nearbyOnly, secret, events)
    && w.relayed == RelayedBy(nearbyOnly, secret, events)
    && w.nearby == NearbyBy(nearbyOnly, secret, events)
    && (w.book.confirmed <==> Confirmed(nearbyOnly, secret, events))
    && w.ended == EndedBy(nearbyOnly, secret, events)
  }

  /** A step of the new devices' side. */
  predicate IsJoining(e: Event) {
    e.StartsJoining? || e.RelayDelivers? || e.NearbyDelivers? || e.ReadsNearby? || e.GivesUp?
  }

  lemma FoundIsRecorded(requests: seq<Request>, id: Id)
    ensures Find(requests, id).Some? <==> Recorded(requests, id)
  {
    if Find(requests, id).Some? {
      assert Find(requests, id).value in requests;
    }
  }

  lemma DecisionIsAnswered(w: World, c: Command, made: bool)
    requires SoundBook(w.book, w.secret) && Decides(w, Decision(c, made))
    ensures Decided(w.book, c, w.secret, made)
            == if made then (w.book.(answer := Some(AnswerTo(w, c))), Some(AnswerTo(w, c).body))
               else (w.book.(failed := true), None)
  {
    if c.Approve? {
      FoundIsRecorded(w.book.requests, c.id);
      var r := Find(w.book.requests, c.id).value;
      assert forall other | other in w.book.requests && other.id == c.id :: other == r;
    }
  }

  lemma NoDecision(w: World, e: Event)
    requires e.Decision? && !Decides(w, e)
    ensures Step(w, e) == w
  {
    if w.ended.None? && !w.book.failed && e.command.Approve? {
      FoundIsRecorded(w.book.requests, e.command.id);
    }
  }

  lemma RequestIsTaken(w: World, e: Event)
    requires e.RelayRequest? || e.NearbyRequest?
    ensures Step(w, e) == if Takes(w, e, e.request) then w.(book := w.book.(requests := w.book.requests + [e.request])) else w
  {
    FoundIsRecorded(w.book.requests, e.request.id);
  }

  lemma DecisionTells(nearbyOnly: bool, secret: nat, events: seq<Event>)
    requires events != [] && Told(nearbyOnly, secret, events[..|events| - 1])
    requires Sound(After(nearbyOnly, secret, events[..|events| - 1]))
    requires var e := events[|events| - 1]; e.Decision?
    ensures Told(nearbyOnly, secret, events)
  {
    var init, e := events[..|events| - 1], events[|events| - 1];
    var w := After(nearbyOnly, secret, init);
    if Decides(w, e) {
      DecisionIsAnswered(w, e.command, e.made);
    } else {
      NoDecision(w, e);
    }
  }

  lemma RequestTells(nearbyOnly: bool, secret: nat, events: seq<Event>)
    requires events != [] && Told(nearbyOnly, secret, events[..|events| - 1])
    requires Sound(After(nearbyOnly, secret, events[..|events| - 1]))
    requires var e := events[|events| - 1]; e.RelayRequest? || e.NearbyRequest?
    ensures Told(nearbyOnly, secret, events)
  {
    var init, e := events[..|events| - 1], events[|events| - 1];
    var w := After(nearbyOnly, secret, init);
    RequestIsTaken(w, e);
  }

  lemma SendingTells(nearbyOnly: bool, secret: nat, events: seq<Event>)
    requires events != [] && Told(nearbyOnly, secret, events[..|events| - 1])
    requires Sound(After(nearbyOnly, secret, events[..|events| - 1]))
    requires var e := events[|events| - 1]; e.Reconnected? || e.NearbyAnswers? || e.RelayRead?
    ensures Told(nearbyOnly, secret, events)
  {
  }

  lemma EndTells(nearbyOnly: bool, secret: nat, events: seq<Event>)
    requires events != [] && Told(nearbyOnly, secret, events[..|events| - 1])
    requires Sound(After(nearbyOnly, secret, events[..|events| - 1]))
    requires var e := events[|events| - 1]; e.Ends? || e.RunsOut?
    ensures Told(nearbyOnly, secret, events)
  {
  }

  lemma JoiningIsAside(w: World, e: Event)
    requires IsJoining(e)
    ensures Step(w, e).(joiners := w.joiners) == w
  {
  }

  lemma JoiningTells(nearbyOnly: bool, secret: nat, events: seq<Event>)
    requires events != [] && Told(nearbyOnly, secret, events[..|events| - 1])
    requires Sound(After(nearbyOnly, secret, events[..|events| - 1]))
    requires IsJoining(events[|events| - 1])
    ensures Told(nearbyOnly, secret, events)
  {
    JoiningIsAside(After(nearbyOnly, secret, events[..|events| - 1]), events[|events| - 1]);
  }

  lemma {:induction false} RunTells(nearbyOnly: bool, secret: nat, events: seq<Event>)
    ensures Told(nearbyOnly, secret, events)
  {
    if events != [] {
      RunTells(nearbyOnly, secret, events[..|events| - 1]);
      RunKeeps(nearbyOnly, secret, events[..|events| - 1]);
      match events[|events| - 1]
      case Decision(_, _) => DecisionTells(nearbyOnly, secret, events);
      case RelayRequest(_) => RequestTells(nearbyOnly, secret, events);
      case NearbyRequest(_) => RequestTells(nearbyOnly, secret, events);
      case Reconnected => SendingTells(nearbyOnly, secret, events);
      case NearbyAnswers => SendingTells(nearbyOnly, secret, events);
      case RelayRead => SendingTells(nearbyOnly, secret, events);
      case Ends => EndTells(nearbyOnly, secret, events);
      case RunsOut => EndTells(nearbyOnly, secret, events);
      case _ => JoiningTells(nearbyOnly, secret, events);
    }
  }

  // ------------------------------------------------------------------ what an invitation comes to

  /**
   * Over every run, an invitation has an answer if and only if there was a decision, made while it was
   * open and undecided, whose answer could be made, and which approved only somebody on the list. It is
   * the answer of that decision, it went out on the relay, and every copy that went out is that one.
   */
  lemma AnswersTheDecision(nearbyOnly: bool, secret: nat, events: seq<Event>)
    ensures var w, answer := After(nearbyOnly, secret, events), AnswerBy(nearbyOnly, secret, events);
            && w.book.answer == answer
            && w.relayed == RelayedBy(nearbyOnly, secret, events) && w.nearby == NearbyBy(nearbyOnly, secret, events)
            && (answer.Some? ==> w.relayed != [] && forall body | body in w.relayed + w.nearby :: body == answer.value.body)
            && (answer.None? ==> w.relayed == [] && w.nearby == [])
  {
    RunTells(nearbyOnly, secret, events);
    RunKeeps(nearbyOnly, secret, events);
    var w := After(nearbyOnly, secret, events);
    assert forall k | 0 <= k < |w.relayed| :: IsTheAnswer(w.book, w.relayed[k]);
    assert forall k | 0 <= k < |w.nearby| :: IsTheAnswer(w.book, w.nearby[k]);
  }

  /** Over every run, the list is exactly the requests that came the right way while there was room, in order. */
  lemma ListsTheRequests(nearbyOnly: bool, secret: nat, events: seq<Event>)
    ensures After(nearbyOnly, secret, events).book.requests == RequestsBy(nearbyOnly, secret, events)
  {
    RunTells(nearbyOnly, secret, events);
  }

  /** Over every run, an invitation ends exactly as its failures, its answer and the relay's word for it say. */
  lemma EndsAsItWent(nearbyOnly: bool, secret: nat, events: seq<Event>)
    ensures After(nearbyOnly, secret, events).ended == EndedBy(nearbyOnly, secret, events)
  {
    RunTells(nearbyOnly, secret, events);
  }

  lemma {:induction false} RunJoins(w: World, first: seq<Event>, second: seq<Event>)
    ensures Run(w, first + second) == Run(Run(w, first), second)
  {
    if second == [] {
      assert first + second == first;
    } else {
      var init := second[..|second| - 1];
      RunJoins(w, first, init);
      assert (first + second)[..|first + second| - 1] == first + init;
    }
  }

  /** The answer of a decision that could be made stands, whatever comes after it. */
  lemma DecisionStands(nearbyOnly: bool, secret: nat, before: seq<Event>, c: Command, after: seq<Event>)
    requires Decides(After(nearbyOnly, secret, before), Decision(c, true))
    ensures After(nearbyOnly, secret, before + [Decision(c, true)] + after).book.answer
            == Some(AnswerTo(After(nearbyOnly, secret, before), c))
  {
    var decided := before + [Decision(c, true)];
    assert decided[..|before|] == before;
    RunTells(nearbyOnly, secret, decided);
    RunJoins(Open(nearbyOnly, secret), decided, after);
    AnswerStays(After(nearbyOnly, secret, decided), after);
  }

  /** Once somebody was declined and the relay has read it, an invitation that looks ends as declined. */
  lemma ConfirmedDeclineEndsDeclined(nearbyOnly: bool, secret: nat, before: seq<Event>, id: Id, after: seq<Event>)
    requires Decides(After(nearbyOnly, secret, before), Decision(Decline(id), true))
    requires var events := before + [Decision(Decline(id), true)] + after;
             After(nearbyOnly, secret, events).ended.None? && Confirmed(nearbyOnly, secret, events)
    ensures var events := before + [Decision(Decline(id), true)] + after;
            After(nearbyOnly, secret, events + [Ends]).ended == Some(Declined)
  {
    var events := before + [Decision(Decline(id), true)] + after;
    DecisionStands(nearbyOnly, secret, before, Decline(id), after);
    RunTells(nearbyOnly, secret, events);
    RunKeeps(nearbyOnly, secret, events);
    EndsAsItWent(nearbyOnly, secret, events + [Ends]);
    assert (events + [Ends])[..|events|] == events;
  }

  // ------------------------------------------------------------------ what a new device comes to

  /** What a device makes of an answer: only one that was made for its id, and a grant only for its key, counts. */
  function MadeOf(r: Request, body: Body): Option<JoinOutcome> {
    match body
    case Grant(id, key, secret) => if r.id == id && r.key == key then Some(Granted(secret)) else None
    case Refusal(id) => if r.id == id then Some(TurnedDown) else None
  }

  /** A device that heard an answer, or no answer: whatever ended it before stays. */
  function Hearing(j: Joiner, heard: Option<Body>): Joiner {
    if j.outcome.Some? || heard.None? then j else j.(outcome := MadeOf(j.request, heard.value))
  }

  /** What happens to the `i`th device in a step, given the copies there are. */
  function NextDevice(j: Joiner, relayed: seq<Body>, nearby: seq<Body>, e: Event, i: nat): Joiner {
    match e
    case RelayDelivers(joiner, copy) =>
      if joiner == i && copy < |relayed| then Hearing(j, Some(relayed[copy])) else j
    case NearbyDelivers(joiner, copy) => if joiner == i && copy < |nearby| then j.(slot := Some(nearby[copy])) else j
    case ReadsNearby(joiner) => if joiner == i then Hearing(j.(slot := None), j.slot) else j
    case GivesUp(joiner) => if joiner == i && j.outcome.None? then j.(outcome := Some(GaveUp)) else j
    case _ => j
  }

  function Asking(events: seq<Event>): nat {
    if events == [] then 0
    else Asking(events[..|events| - 1]) + if events[|events| - 1].StartsJoining? then 1 else 0
  }

  /** The `i`th device that started joining, with all it heard since. */
  ghost function DeviceBy(nearbyOnly: bool, secret: nat, events: seq<Event>, i: nat): Option<Joiner> {
    if events == [] then None
    else
      var init, e := events[..|events| - 1], events[|events| - 1];
      match DeviceBy(nearbyOnly, secret, init, i)
      case Some(j) =>
        Some(NextDevice(j, RelayedBy(nearbyOnly, secret, init), NearbyBy(nearbyOnly, secret, init), e, i))
      case None => if e.StartsJoining? && i == Asking(init) then Some(Joiner(e.request, None, None)) else None
  }

  lemma JoinersStep(w: World, e: Event, i: nat)
    ensures |Step(w, e).joiners| == |w.joiners| + if e.StartsJoining? then 1 else 0
    ensures i < |w.joiners| ==> Step(w, e).joiners[i] == NextDevice(w.joiners[i], w.relayed, w.nearby, e, i)
    ensures e.StartsJoining? && i == |w.joiners| ==> Step(w, e).joiners[i] == Joiner(e.request, None, None)
  {
    if IsJoining(e) {
      assert InviteStep(w, e) == w;
    }
  }

  /**
   * Over every run, every device that started joining ends with the first answer it hears that was made
   * for it, if it did not give up before, and with nothing else.
   */
  lemma {:induction false} DeviceEndsAsItHears(nearbyOnly: bool, secret: nat, events: seq<Event>, i: nat)
    ensures var joiners := After(nearbyOnly, secret, events).joiners;
            && |joiners| == Asking(events) && (i < |joiners| <==> DeviceBy(nearbyOnly, secret, events, i).Some?)
            && (i < |joiners| ==> joiners[i] == DeviceBy(nearbyOnly, secret, events, i).value)
  {
    if events != [] {
      var init := events[..|events| - 1];
      DeviceEndsAsItHears(nearbyOnly, secret, init, i);
      RunTells(nearbyOnly, secret, init);
      JoinersStep(After(nearbyOnly, secret, init), events[|events| - 1], i);
    }
  }

  /** A device that was declined under its id ends turned down once a copy reaches it, if nothing ended it before. */
  lemma DeclinedIsTurnedDown(nearbyOnly: bool, secret: nat, before: seq<Event>, id: Id, after: seq<Event>, i: nat, copy: nat)
    requires Decides(After(nearbyOnly, secret, before), Decision(Decline(id), true))
    requires var w := After(nearbyOnly, secret, before + [Decision(Decline(id), true)] + after);
             && i < |w.joiners| && w.joiners[i].request.id == id && w.joiners[i].outcome.None? && copy < |w.relayed|
    ensures var events := before + [Decision(Decline(id), true)] + after;
            var joiners := After(nearbyOnly, secret, events + [RelayDelivers(i, copy)]).joiners;
            i < |joiners| && joiners[i].outcome == Some(TurnedDown)
  {
    var events := before + [Decision(Decline(id), true)] + after;
    var w, delivers := After(nearbyOnly, secret, events), RelayDelivers(i, copy);
    DecisionStands(nearbyOnly, secret, before, Decline(id), after);
    AnswersTheDecision(nearbyOnly, secret, events);
    assert w.relayed[copy] == Refusal(id) by {
      assert w.relayed[copy] in w.relayed + w.nearby;
    }
    JoinersStep(w, delivers, i);
    RunMore(Open(nearbyOnly, secret), events, delivers);
  }
}
