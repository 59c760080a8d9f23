/**
 * The Wayland connection's bookkeeping, crates/asli-clipboard/src/linux_wayland.rs: offers the
 * compositor announces, the one waiting to be read, and the source this client serves.
 *
 * Object ids are never reused here: the compositor reuses one only after its object is destroyed.
 */
module Wayland {
  import opened Options

  type Id = nat
  type Mime = string
  type Bytes = string

  const SENSITIVE_MIME: Mime := "x-kde-passwordManagerHint"
  const SENSITIVE_VALUE: Bytes := "secret"
  const TEXT_MIMES: seq<Mime> := ["text/plain;charset=utf-8", "UTF8_STRING", "text/plain", "STRING"]
  const IMAGE_MIMES: seq<Mime> := ["image/png", "PNG"]

  // ------------------------------------------------------------------ what a source answers

  datatype Row = Row(mime: Mime, bytes: Bytes)

  type Table = seq<Row>

  /** Every type answers with the content, and the hint with its own value, last. */
  function OfferTable(mimes: seq<Mime>, content: Bytes, concealed: bool): Table {
    seq(|mimes|, i requires 0 <= i < |mimes| => Row(mimes[i], content))
    + if concealed then [Row(SENSITIVE_MIME, SENSITIVE_VALUE)] else []
  }

  /** The bytes of the first row of this type, found by a search from the front. */
  method PayloadFor(table: Table, mime: Mime) returns (payload: Option<Bytes>)
    ensures payload == Payload(table, mime)
  {
    var i := 0;
    while i < |table|
      invariant 0 <= i <= |table|
      invariant Payload(table, mime) == Payload(table[i..], mime)
    {
      if table[i].mime == mime {
        return Some(table[i].bytes);
      }
      i := i + 1;
    }
    return None;
  }

  function Payload(table: Table, mime: Mime): Option<Bytes> {
    if table == [] then None
    else if table[0].mime == mime then Some(table[0].bytes)
    else Payload(table[1..], mime)
  }

  lemma {:induction false} PayloadFirst(table: Table, mime: Mime)
    ensures match Payload(table, mime)
            case None => forall i | 0 <= i < |table| :: table[i].mime != mime
            case Some(bytes) =>
              exists i | 0 <= i < |table| ::
                table[i] == Row(mime, bytes) && forall j | 0 <= j < i :: table[j].mime != mime
  {
    if table != [] && table[0].mime != mime {
      PayloadFirst(table[1..], mime);
      if Payload(table, mime).Some? {
        var i :| 0 <= i < |table| - 1 && table[1..][i] == Row(mime, Payload(table, mime).value)
          && forall j | 0 <= j < i :: table[1..][j].mime != mime;
        assert table[i + 1] == table[1..][i];
        assert forall j | 0 < j < i + 1 :: table[j] == table[1..][j - 1];
      } else {
        assert forall i | 0 < i < |table| :: table[i] == table[1..][i - 1];
      }
    }
  }

  /** A paste gets the content for every offered type, the marker's value for the marker, and nothing else. */
  lemma PasteGets(mimes: seq<Mime>, content: Bytes, concealed: bool, mime: Mime)
    requires SENSITIVE_MIME !in mimes
    ensures Payload(OfferTable(mimes, content, concealed), mime)
            == if mime in mimes then Some(content)
               else if concealed && mime == SENSITIVE_MIME then Some(SENSITIVE_VALUE)
               else None
  {
    var table := OfferTable(mimes, content, concealed);
    PayloadFirst(table, mime);
    if mime in mimes {
      var i :| 0 <= i < |mimes| && mimes[i] == mime;
      assert table[i].mime == mime;
    } else if concealed && mime == SENSITIVE_MIME {
      assert table[|mimes|] == Row(SENSITIVE_MIME, SENSITIVE_VALUE);
    }
  }

  // ------------------------------------------------------------------ what is read of an offer

  datatype Choice = Marked | Text(mime: Mime) | Image(mime: Mime) | Neither

  function FirstOffered(candidates: seq<Mime>, mimes: seq<Mime>): Option<Mime> {
    if candidates == [] then None
    else if candidates[0] in mimes then Some(candidates[0])
    else FirstOffered(candidates[1..], mimes)
  }

  /** A marked offer is not read at all; text wins over an image. */
  function Chosen(mimes: seq<Mime>): Choice {
    if SENSITIVE_MIME in mimes then Marked
    else
      match FirstOffered(TEXT_MIMES, mimes)
      case Some(mime) => Text(mime)
      case None =>
        match FirstOffered(IMAGE_MIMES, mimes)
        case Some(mime) => Image(mime)
        case None => Neither
  }

  /** What came of reading the chosen type. `Broken` stands for every error that ends the watcher. */
  datatype Read = Content(bytes: Bytes) | Nothing | Failed | TooLarge | Broken

  datatype Report = Copied(bytes: Bytes) | CopiedImage(bytes: Bytes) | Sensitive | CopiedTooLarge

  // ------------------------------------------------------------------ the connection

  datatype Pending = NoNews | Cleared | Offer(id: Id)

  datatype Source = Source(id: Id, table: Table)

  /** `destroyed`, `selections` and `reports` are what the client sent and said, in order. */
  datatype Client = Client(
    offers: map<Id, seq<Mime>>,
    pending: Pending,
    serving: Option<Source>,
    finished: bool,
    seenInitial: bool,
    serveOnly: bool,
    ended: bool,
    destroyed: seq<Id>,
    selections: seq<Option<Id>>,
    reports: seq<Report>)

  function Connected(serveOnly: bool): Client {
    Client(map[], NoNews, None, false, false, serveOnly, false, [], [], [])
  }

  /** Forgets an offer and destroys it. */
  function Destroyed(c: Client, id: Id): Client {
    c.(offers := c.offers - {id}, destroyed := c.destroyed + [id])
  }

  function Replaced(c: Client, next: Pending): Client {
    if c.pending.Offer? then Destroyed(c, c.pending.id).(pending := next) else c.(pending := next)
  }

  function Announced(c: Client, id: Id): Client {
    c.(offers := c.offers[id := []])
  }

  function Described(c: Client, id: Id, mime: Mime): Client {
    c.(offers := c.offers[id := (if id in c.offers then c.offers[id] else []) + [mime]])
  }

  function Serving(c: Client, source: Id, table: Table): Client {
    c.(serving := Some(Source(source, table)), selections := c.selections + [Some(source)])
  }

  function Released(c: Client): Client {
    if c.serving.None? then c else c.(serving := None, selections := c.selections + [None])
  }

  function TableFor(c: Client, source: Id): Option<Table> {
    if c.serving.Some? && c.serving.value.id == source then Some(c.serving.value.table) else None
  }

  function Cancelled(c: Client, source: Id): Client {
    if c.serving.Some? && c.serving.value.id == source then c.(serving := None) else c
  }

  function Reported(c: Client, choice: Choice, read: Read): Client {
    match choice
    case Marked => c.(reports := c.reports + [Sensitive])
    case Neither => c
    case _ =>
      match read
      case Content(bytes) =>
        c.(reports := c.reports + [if choice.Text? then Copied(bytes) else CopiedImage(bytes)])
      case TooLarge => c.(reports := c.reports + [CopiedTooLarge])
      case _ => c
  }

  /** Reads an offer, says what it found, and destroys the offer unless the watcher has to end. */
  function ReadAndDestroyed(c: Client, id: Id, read: Read): Client {
    var choice := Chosen(if id in c.offers then c.offers[id] else []);
    if (choice.Text? || choice.Image?) && read.Broken? then c.(ended := true)
    else Destroyed(Reported(c, choice, read), id)
  }

  /** One pass of the watch loop after the events were dispatched. */
  function Turned(c: Client, read: Read): Client {
    if c.finished then c.(ended := true)
    else
      var next := c.(pending := NoNews);
      match c.pending
      case NoNews => next
      case Cleared => next.(seenInitial := true)
      case Offer(id) =>
        if !c.seenInitial then Destroyed(next, id).(seenInitial := true)
        else if c.serveOnly then Destroyed(next, id)
        else ReadAndDestroyed(next, id, read)
  }

  class Connection {
    var offers: map<Id, seq<Mime>>
    var pending: Pending
    var serving: Option<Source>
    var finished: bool
    var seenInitial: bool
    const serveOnly: bool
    var ended: bool
    var destroyed: seq<Id>
    var selections: seq<Option<Id>>
    var reports: seq<Report>

    function State(): Client
      reads this
    {
      Client(offers, pending, serving, finished, seenInitial, serveOnly, ended, destroyed, selections, reports)
    }

    constructor (serveOnly: bool)
      ensures State() == Connected(serveOnly)
    {
      this.serveOnly := serveOnly;
      offers, pending, serving, finished, seenInitial, ended := map[], NoNews, None, false, false, false;
      destroyed, selections, reports := [], [], [];
    }

    method Destroy(id: Id)
      modifies this`offers, this`destroyed
      ensures State() == Destroyed(old(State()), id)
    {
      offers := offers - {id};
      destroyed := destroyed + [id];
    }

    /** Makes `next` the pending news. An offer it displaces is dropped from the map and destroyed. */
    method ReplacePending(next: Pending)
      modifies this
      ensures State() == Replaced(old(State()), next)
    {
      var before := pending;
      pending := next;
      if before.Offer? {
        Destroy(before.id);
      }
    }

    method OnDataOffer(id: Id)
      modifies this
      ensures State() == Announced(old(State()), id)
    {
      offers := offers[id := []];
    }

    method OnMime(id: Id, mime: Mime)
      modifies this
      ensures State() == Described(old(State()), id, mime)
    {
      if id !in offers {
        offers := offers[id := []];
      }
      offers := offers[id := offers[id] + [mime]];
    }

    method OnSelection(id: Option<Id>)
      modifies this
      ensures State() == Replaced(old(State()), if id.Some? then Offer(id.value) else Cleared)
    {
      match id
      case Some(offer) => ReplacePending(Offer(offer));
      case None => ReplacePending(Cleared);
    }

    /** Answers a paste: what to write into its pipe, if anything. */
    method OnSend(source: Id, mime: Mime) returns (payload: Option<Bytes>)
      ensures payload == if TableFor(State(), source).None? then None else Payload(TableFor(State(), source).value, mime)
    {
      if serving.Some? {
        if serving.value.id == source {
          payload := PayloadFor(serving.value.table, mime);
          return;
        }
      }
      return None;
    }

    method OnCancelled(source: Id)
      modifies this
      ensures State() == Cancelled(old(State()), source)
    {
      if serving.Some? {
        if serving.value.id == source {
          serving := None;
        }
      }
    }

    /** Serves text from a new source. Answers the types the source offered. */
    method SetText(source: Id, text: Bytes, concealed: bool) returns (offered: seq<Mime>)
      modifies this
      ensures State() == Serving(old(State()), source, OfferTable(TEXT_MIMES, text, concealed))
      ensures offered == TEXT_MIMES + if concealed then [SENSITIVE_MIME] else []
    {
      offered := TEXT_MIMES;
      if concealed {
        offered := offered + [SENSITIVE_MIME];
      }
      serving := Some(Source(source, OfferTable(TEXT_MIMES, text, concealed)));
      selections := selections + [Some(source)];
    }

    /** Serves an image, if it is one. The source offers the image types and nothing else. */
    method SetImage(source: Id, png: Bytes, concealed: bool, valid: bool) returns (offered: Option<seq<Mime>>)
      modifies this
      ensures !valid ==> offered.None? && State() == old(State())
      ensures valid ==> offered == Some(IMAGE_MIMES)
      ensures valid ==> State() == Serving(old(State()), source, OfferTable(IMAGE_MIMES, png, concealed))
    {
      if !valid {
        return None;
      }
      serving := Some(Source(source, OfferTable(IMAGE_MIMES, png, concealed)));
      selections := selections + [Some(source)];
      return Some(IMAGE_MIMES);
    }

    /** Clears the selection while something is served, and does nothing otherwise. */
    method ReleaseSelection()
      modifies this
      ensures State() == Released(old(State()))
    {
      if serving.None? {
        return;
      }
      serving := None;
      selections := selections + [None];
    }

    method Report(choice: Choice, read: Read)
      modifies this`reports
      ensures State() == Reported(old(State()), choice, read)
    {
      match choice
      case Marked => reports := reports + [Sensitive];
      case Neither =>
      case Text(_) =>
        if read.Content? {
          reports := reports + [Copied(read.bytes)];
        } else if read.TooLarge? {
          reports := reports + [CopiedTooLarge];
        }
      case Image(_) =>
        if read.Content? {
          reports := reports + [CopiedImage(read.bytes)];
        } else if read.TooLarge? {
          reports := reports + [CopiedTooLarge];
        }
    }

    method ReadPending(id: Id, read: Read)
      modifies this
      ensures State() == ReadAndDestroyed(old(State()), id, read)
    {
      var choice := Chosen(if id in offers then offers[id] else []);
      if (choice.Text? || choice.Image?) && read.Broken? {
        ended := true;
        return;
      }
      Report(choice, read);
      Destroy(id);
    }

    method Turn(read: Read)
      modifies this
      ensures State() == Turned(old(State()), read)
    {
      if finished {
        ended := true;
        return;
      }
      var news := pending;
      pending := NoNews;
      match news
      case NoNews =>
      case Cleared => seenInitial := true;
      case Offer(id) =>
        if !seenInitial {
          seenInitial := true;
          Destroy(id);
        } else if serveOnly {
          Destroy(id);
        } else {
          ReadPending(id, read);
        }
    }
  }

  // ------------------------------------------------------------------ runs

  /**
   * The client and the compositor's side of it: the offers it announced and those it gave a use, every
   * write and its source, and the sources that were cancelled or released.
   */
  datatype World = World(
    client: Client,
    announced: set<Id>,
    used: set<Id>,
    writes: seq<Source>,
    over: set<Id>)

  datatype Event =
    | DataOffer(id: Id)
    | MimeOf(id: Id, mime: Mime)
    | Selects(offer: Option<Id>)
    | SelectsPrimary(id: Id)
    | Finishes
    | Cancels(source: Id)
    | Writes(source: Id, mimes: seq<Mime>, content: Bytes, concealed: bool)
    | Releases
    | Turns(read: Read)

  function Start(serveOnly: bool): World {
    World(Connected(serveOnly), {}, {}, [], {})
  }

  /** An offer the compositor announced and gave no use yet. */
  predicate Unassigned(w: World, id: Id) {
    id in w.announced && id !in w.used
  }

  ghost predicate SourceUsed(w: World, id: Id) {
    exists i | 0 <= i < |w.writes| :: w.writes[i].id == id
  }

  /** What the compositor may do next, and what a new source's id may be. */
  ghost predicate Allowed(w: World, e: Event) {
    match e
    case DataOffer(id) => id !in w.announced
    case MimeOf(id, _) => id in w.announced && id !in w.client.destroyed
    case Selects(Some(id)) => Unassigned(w, id)
    case SelectsPrimary(id) => Unassigned(w, id)
    case Cancels(source) => SourceUsed(w, source)
    case Writes(source, _, _, _) => !SourceUsed(w, source)
    case _ => true
  }

  function Step(w: World, e: Event): World {
    var c := w.client;
    if c.ended then w
    else
      match e
      case DataOffer(id) => w.(client := Announced(c, id), announced := w.announced + {id})
      case MimeOf(id, mime) => w.(client := Described(c, id, mime))
      case Selects(None) => w.(client := Replaced(c, Cleared))
      case Selects(Some(id)) => w.(client := Replaced(c, Offer(id)), used := w.used + {id})
      case SelectsPrimary(id) => w.(client := Destroyed(c, id), used := w.used + {id})
      case Finishes => w.(client := c.(finished := true))
      case Cancels(source) => w.(client := Cancelled(c, source), over := w.over + {source})
      case Writes(source, mimes, content, concealed) =>
        var table := OfferTable(mimes, content, concealed);
        w.(client := Serving(c, source, table), writes := w.writes + [Source(source, table)])
      case Releases =>
        w.(client := Released(c), over := if c.serving.Some? then w.over + {c.serving.value.id} else w.over)
      case Turns(read) => w.(client := Turned(c, read))
  }

  ghost predicate AllowedRun(w: World, events: seq<Event>) {
    events != [] ==>
      var init := events[..|events| - 1];
      AllowedRun(w, init) && Allowed(Run(w, init), events[|events| - 1])
  }

  function Run(w: World, events: seq<Event>): World {
    if events == [] then w else Step(Run(w, events[..|events| - 1]), events[|events| - 1])
  }

  // ------------------------------------------------------------------ what always holds

  ghost predicate NoRepeats(ids: seq<Id>) {
    forall i, j | 0 <= i < j < |ids| :: ids[i] != ids[j]
  }

  predicate IsPending(c: Client, id: Id) {
    c.pending == Offer(id)
  }

  /**
   * The offer map holds the offers without a use and the pending one; every other used offer was
   * destroyed once, and no other offer was.
   */
  ghost predicate OffersFit(
    offers: map<Id, seq<Mime>>, pending: Pending, destroyed: seq<Id>, announced: set<Id>, used: set<Id>)
  {
    && (forall id :: id in offers <==> (id in announced && id !in used) || pending == Offer(id))
    && (forall id :: id in destroyed <==> id in used && pending != Offer(id))
    && used <= announced
    && (pending.Offer? ==> pending.id in used)
    && NoRepeats(destroyed)
  }

  ghost predicate OffersSound(w: World) {
    OffersFit(w.client.offers, w.client.pending, w.client.destroyed, w.announced, w.used)
  }

  lemma PendingDestroyed(
    offers: map<Id, seq<Mime>>, id: Id, destroyed: seq<Id>, announced: set<Id>, used: set<Id>, next: Pending)
    requires OffersFit(offers, Offer(id), destroyed, announced, used) && !next.Offer?
    ensures OffersFit(offers - {id}, next, destroyed + [id], announced, used)
  {
  }

  lemma BecomesPending(
    offers: map<Id, seq<Mime>>, pending: Pending, destroyed: seq<Id>, announced: set<Id>, used: set<Id>, id: Id)
    requires OffersFit(offers, pending, destroyed, announced, used) && !pending.Offer?
    requires id in announced && id !in used
    ensures OffersFit(offers, Offer(id), destroyed, announced, used + {id})
  {
  }

  lemma ReplacedKeeps(w: World, next: Pending)
    requires OffersSound(w) && (next.Offer? ==> Unassigned(w, next.id))
    ensures var c := Replaced(w.client, next);
            OffersFit(c.offers, c.pending, c.destroyed, w.announced, if next.Offer? then w.used + {next.id} else w.used)
  {
    var c := w.client;
    if c.pending.Offer? {
      PendingDestroyed(c.offers, c.pending.id, c.destroyed, w.announced, w.used, NoNews);
      if next.Offer? {
        BecomesPending(c.offers - {c.pending.id}, NoNews, c.destroyed + [c.pending.id], w.announced, w.used, next.id);
      } else {
        PendingDestroyed(c.offers, c.pending.id, c.destroyed, w.announced, w.used, next);
      }
    } else if next.Offer? {
      BecomesPending(c.offers, c.pending, c.destroyed, w.announced, w.used, next.id);
    }
  }

  lemma TurnedKeeps(w: World, read: Read)
    requires OffersSound(w)
    ensures var c := Turned(w.client, read);
            c.ended || OffersFit(c.offers, c.pending, c.destroyed, w.announced, w.used)
  {
    var c := w.client;
    if c.pending.Offer? {
      PendingDestroyed(c.offers, c.pending.id, c.destroyed, w.announced, w.used, NoNews);
    }
  }

  lemma PrimaryDestroyed(w: World, id: Id)
    requires OffersSound(w) && Unassigned(w, id)
    ensures OffersFit(w.client.offers - {id}, w.client.pending, w.client.destroyed + [id], w.announced, w.used + {id})
  {
  }

  lemma StepKeepsOffers(w: World, e: Event)
    requires OffersSound(w) && Allowed(w, e) && !w.client.ended
    ensures OffersSound(Step(w, e)) || Step(w, e).client.ended
  {
    match e
    case Selects(None) => ReplacedKeeps(w, Cleared);
    case Selects(Some(id)) => ReplacedKeeps(w, Offer(id));
    case SelectsPrimary(id) => PrimaryDestroyed(w, id);
    case Turns(read) => TurnedKeeps(w, read);
    case _ =>
  }

  /** What is served is the last write, unless its source was cancelled or released. */
  ghost predicate ServingSound(w: World) {
    && w.client.serving
       == (if w.writes == [] || w.writes[|w.writes| - 1].id in w.over then None
           else Some(w.writes[|w.writes| - 1]))
    && (forall i, j | 0 <= i < j < |w.writes| :: w.writes[i].id != w.writes[j].id)
    && (forall id | id in w.over :: SourceUsed(w, id))
  }

  lemma StillUsed(w: World, after: World, id: Id)
    requires SourceUsed(w, id) && w.writes <= after.writes
    ensures SourceUsed(after, id)
  {
    var i :| 0 <= i < |w.writes| && w.writes[i].id == id;
    assert after.writes[i].id == id;
  }

  lemma WritesKeepsServing(w: World, e: Event)
    requires ServingSound(w) && Allowed(w, e) && e.Writes?
    ensures ServingSound(Step(w, e))
  {
    forall id | id in w.over
      ensures SourceUsed(Step(w, e), id)
    {
      StillUsed(w, Step(w, e), id);
    }
  }

  lemma OthersKeepServing(w: World, e: Event)
    requires ServingSound(w) && Allowed(w, e) && !e.Writes?
    ensures ServingSound(Step(w, e))
  {
    var after := Step(w, e);
    assert after.writes == w.writes;
    if e.Releases? && w.client.serving.Some? {
      assert w.writes[|w.writes| - 1].id == w.client.serving.value.id;
    }
    forall id | id in after.over
      ensures SourceUsed(after, id)
    {
      assert SourceUsed(w, id);
      StillUsed(w, after, id);
    }
  }

  lemma StepKeepsServing(w: World, e: Event)
    requires ServingSound(w) && Allowed(w, e)
    ensures ServingSound(Step(w, e))
  {
    if e.Writes? {
      WritesKeepsServing(w, e);
    } else {
      OthersKeepServing(w, e);
    }
  }

  lemma {:induction false} RunKeeps(serveOnly: bool, events: seq<Event>)
    requires AllowedRun(Start(serveOnly), events)
    ensures var w := Run(Start(serveOnly), events);
            (OffersSound(w) || w.client.ended) && ServingSound(w)
  {
    if events != [] {
      var init, e := events[..|events| - 1], events[|events| - 1];
      RunKeeps(serveOnly, init);
      var w := Run(Start(serveOnly), init);
      if !w.client.ended {
        StepKeepsOffers(w, e);
      }
      StepKeepsServing(w, e);
    }
  }

  /** The offer map holds exactly the offers announced and not yet used, and the pending one. */
  lemma OffersAreTheOpenOnes(serveOnly: bool, events: seq<Event>, id: Id)
    requires AllowedRun(Start(serveOnly), events) && !Run(Start(serveOnly), events).client.ended
    ensures var w := Run(Start(serveOnly), events);
            id in w.client.offers <==> Unassigned(w, id) || IsPending(w.client, id)
  {
    RunKeeps(serveOnly, events);
  }

  lemma {:induction false} CountOnce(ids: seq<Id>, id: Id)
    requires NoRepeats(ids)
    ensures multiset(ids)[id] == if id in ids then 1 else 0
  {
    if ids != [] {
      var init, last := ids[..|ids| - 1], ids[|ids| - 1];
      CountOnce(init, id);
      assert ids == init + [last];
      assert last !in init;
    }
  }

  /** Every offer that was given a use and is not waiting to be read was destroyed exactly once. */
  lemma DestroyedExactlyOnce(serveOnly: bool, events: seq<Event>, id: Id)
    requires AllowedRun(Start(serveOnly), events) && !Run(Start(serveOnly), events).client.ended
    ensures var w := Run(Start(serveOnly), events);
            multiset(w.client.destroyed)[id] == if id in w.used && !IsPending(w.client, id) then 1 else 0
  {
    RunKeeps(serveOnly, events);
    CountOnce(Run(Start(serveOnly), events).client.destroyed, id);
  }

  /**
   * A paste is answered from the latest write and only on its own source, until that source is
   * cancelled or the selection released: a replaced source gets nothing, and its late cancellation
   * changes nothing.
   */
  lemma PasteGetsTheLatestWrite(serveOnly: bool, events: seq<Event>, source: Id)
    requires AllowedRun(Start(serveOnly), events)
    ensures var w := Run(Start(serveOnly), events);
            TableFor(w.client, source)
            == if w.writes != [] && source == w.writes[|w.writes| - 1].id && source !in w.over
               then Some(w.writes[|w.writes| - 1].table) else None
  {
    RunKeeps(serveOnly, events);
  }

  /** A selection is given up only while the latest write's source is the one being served. */
  lemma ReleasesOnlyItsOwn(serveOnly: bool, events: seq<Event>)
    requires AllowedRun(Start(serveOnly), events)
    ensures var w := Run(Start(serveOnly), events);
            Released(w.client).selections != w.client.selections
            <==> w.writes != [] && w.writes[|w.writes| - 1].id !in w.over
  {
    RunKeeps(serveOnly, events);
  }

  /** A text source offers exactly the types it answers. */
  lemma TextOffersWhatItServes(text: Bytes, concealed: bool, mime: Mime)
    ensures mime in TEXT_MIMES + (if concealed then [SENSITIVE_MIME] else [])
            <==> Payload(OfferTable(TEXT_MIMES, text, concealed), mime).Some?
  {
    PasteGets(TEXT_MIMES, text, concealed, mime);
  }

  /** An image source does so exactly when it is not concealed: the marker is answered and never offered. */
  lemma ImageOffersWhatItServesExactlyWhen(png: Bytes, concealed: bool)
    ensures (forall mime: Mime ::
               mime in IMAGE_MIMES <==> Payload(OfferTable(IMAGE_MIMES, png, concealed), mime).Some?)
            <==> !concealed
  {
    forall mime: Mime
      ensures Payload(OfferTable(IMAGE_MIMES, png, concealed), mime).Some?
              <==> mime in IMAGE_MIMES || (concealed && mime == SENSITIVE_MIME)
    {
      PasteGets(IMAGE_MIMES, png, concealed, mime);
    }
    assert SENSITIVE_MIME !in IMAGE_MIMES;
  }

  // ------------------------------------------------------------------ what is reported

  /** The most specific offered type is read, text before images, and a marked offer not at all. */
  lemma ReadsTheBest(mimes: seq<Mime>)
    ensures match Chosen(mimes)
            case Marked => SENSITIVE_MIME in mimes
            case Text(mime) => SENSITIVE_MIME !in mimes && IsFirstOf(TEXT_MIMES, mimes, mime)
            case Image(mime) =>
              SENSITIVE_MIME !in mimes && NoneOf(TEXT_MIMES, mimes) && IsFirstOf(IMAGE_MIMES, mimes, mime)
            case Neither => SENSITIVE_MIME !in mimes && NoneOf(TEXT_MIMES, mimes) && NoneOf(IMAGE_MIMES, mimes)
  {
    FirstOfferedIsFirst(TEXT_MIMES, mimes);
    FirstOfferedIsFirst(IMAGE_MIMES, mimes);
  }

  predicate NoneOf(candidates: seq<Mime>, mimes: seq<Mime>) {
    forall i | 0 <= i < |candidates| :: candidates[i] !in mimes
  }

  ghost predicate IsFirstOf(candidates: seq<Mime>, mimes: seq<Mime>, mime: Mime) {
    exists i | 0 <= i < |candidates| ::
      candidates[i] == mime && mime in mimes && forall j | 0 <= j < i :: candidates[j] !in mimes
  }

  lemma {:induction false} FirstOfferedIsFirst(candidates: seq<Mime>, mimes: seq<Mime>)
    ensures match FirstOffered(candidates, mimes)
            case None => NoneOf(candidates, mimes)
            case Some(mime) => IsFirstOf(candidates, mimes, mime)
  {
    if candidates != [] {
      var rest := candidates[1..];
      FirstOfferedIsFirst(rest, mimes);
      assert forall i | 0 < i < |candidates| :: candidates[i] == rest[i - 1];
      if candidates[0] !in mimes && FirstOffered(rest, mimes).Some? {
        var mime := FirstOffered(rest, mimes).value;
        var i :| 0 <= i < |rest| && rest[i] == mime && mime in mimes && forall j | 0 <= j < i :: rest[j] !in mimes;
        assert candidates[i + 1] == mime;
        assert forall j | 0 <= j < i + 1 :: candidates[j] !in mimes;
      }
    }
  }

  /** Nothing was reported yet unless the connection reads at all and its baseline has been seen. */
  ghost predicate QuietSoFar(c: Client) {
    c.serveOnly || !c.seenInitial ==> c.reports == []
  }

  lemma StepKeepsQuiet(w: World, e: Event)
    requires QuietSoFar(w.client)
    ensures QuietSoFar(Step(w, e).client) && Step(w, e).client.serveOnly == w.client.serveOnly
    ensures !w.client.seenInitial ==> Step(w, e).client.reports == w.client.reports
  {
  }

  /**
   * Over every run, a connection that only serves reports nothing, and one that reads reports nothing
   * up to and including the turn that takes the first selection as the baseline.
   */
  lemma {:induction false} BaselineIsNeverReported(serveOnly: bool, events: seq<Event>)
    ensures var c := Run(Start(serveOnly), events).client;
            && QuietSoFar(c) && c.serveOnly == serveOnly
            && (events != [] && !Run(Start(serveOnly), events[..|events| - 1]).client.seenInitial ==> c.reports == [])
  {
    if events != [] {
      var init := events[..|events| - 1];
      BaselineIsNeverReported(serveOnly, init);
      StepKeepsQuiet(Run(Start(serveOnly), init), events[|events| - 1]);
    }
  }
}
