/**
 * What the Wayland connection of crates/asli-clipboard/src/linux_wayland.rs reports, requests and serves,
 * read off the events of a run alone.
 */
module WaylandReports {
  import opened Options
  import opened Wayland

  // ------------------------------------------------------------------ what the events say

  /** The types described for an offer since it was announced. */
  function TypesOf(events: seq<Event>, id: Id): seq<Mime> {
    if events == [] then []
    else
      var init, e := events[..|events| - 1], events[|events| - 1];
      if e == DataOffer(id) then []
      else TypesOf(init, id) + if e.MimeOf? && e.id == id then [e.mime] else []
  }

  /** The last selection since the last turn. */
  function PendingOf(events: seq<Event>): Pending {
    if events == [] then NoNews
    else
      match events[|events| - 1]
      case Selects(Some(id)) => Offer(id)
      case Selects(None) => Cleared
      case Turns(_) => NoNews
      case _ => PendingOf(events[..|events| - 1])
  }

  /** A turn has seen a selection: the baseline was taken. */
  predicate Baselined(events: seq<Event>) {
    events != []
    && var init := events[..|events| - 1];
       (events[|events| - 1].Turns? && PendingOf(init) != NoNews) || Baselined(init)
  }

  /** A turn now reads the pending offer. */
  predicate Reads(serveOnly: bool, events: seq<Event>) {
    PendingOf(events).Offer? && Baselined(events) && !serveOnly
  }

  predicate AnyOf(candidates: seq<Mime>, mimes: seq<Mime>) {
    exists i | 0 <= i < |candidates| :: candidates[i] in mimes
  }

  predicate OffersText(mimes: seq<Mime>) {
    SENSITIVE_MIME !in mimes && AnyOf(TEXT_MIMES, mimes)
  }

  predicate OffersImage(mimes: seq<Mime>) {
    SENSITIVE_MIME !in mimes && !AnyOf(TEXT_MIMES, mimes) && AnyOf(IMAGE_MIMES, mimes)
  }

  /** What is said of an offer with these types and of what came of reading it. */
  function Said(mimes: seq<Mime>, read: Read): seq<Report> {
    if SENSITIVE_MIME in mimes then [Sensitive]
    else if (OffersText(mimes) || OffersImage(mimes)) && read.TooLarge? then [CopiedTooLarge]
    else if OffersText(mimes) && read.Content? then [Copied(read.bytes)]
    else if OffersImage(mimes) && read.Content? then [CopiedImage(read.bytes)]
    else []
  }

  /** The watcher is over: a turn found the connection finished, or broke while it read an offer. */
  predicate Over(serveOnly: bool, events: seq<Event>) {
    events != []
    && var init, e := events[..|events| - 1], events[|events| - 1];
       || Over(serveOnly, init)
       || (e.Turns? && Finishes in init)
       || (e.Turns? && Reads(serveOnly, init) && e.read.Broken?
           && var mimes := TypesOf(init, PendingOf(init).id); OffersText(mimes) || OffersImage(mimes))
  }

  /** Every report of a run: one at most for each turn that reads an offer, and none for anything else. */
  function ReportsBy(serveOnly: bool, events: seq<Event>): seq<Report> {
    if events == [] then []
    else
      var init, e := events[..|events| - 1], events[|events| - 1];
      ReportsBy(serveOnly, init)
      + if e.Turns? && Reads(serveOnly, init) && !Over(serveOnly, events) then Said(TypesOf(init, PendingOf(init).id), e.read)
        else []
  }

  /** The source of the last write, unless it was cancelled or given up since. */
  function ServedBy(events: seq<Event>): Option<Id> {
    if events == [] then None
    else
      var was := ServedBy(events[..|events| - 1]);
      match events[|events| - 1]
      case Writes(source, _, _, _) => Some(source)
      case Cancels(source) => if was == Some(source) then None else was
      case Releases => None
      case _ => was
  }

  /** Every selection requested: one for each write, and none again for a release that gives one up. */
  function SelectionsBy(serveOnly: bool, events: seq<Event>): seq<Option<Id>> {
    if events == [] then []
    else
      var init, e := events[..|events| - 1], events[|events| - 1];
      SelectionsBy(serveOnly, init)
      + if Over(serveOnly, init) then []
        else if e.Writes? then [Some(e.source)]
        else if e.Releases? && ServedBy(init).Some? then [None]
        else []
  }

  // ------------------------------------------------------------------ the connection does what they say

  /** What the connection said and asked for, and whether its watcher is over. */
  ghost predicate SaysSo(c: Client, serveOnly: bool, events: seq<Event>) {
    && c.serveOnly == serveOnly
    && (c.ended <==> Over(serveOnly, events))
    && c.reports == ReportsBy(serveOnly, events)
    && c.selections == SelectionsBy(serveOnly, events)
  }

  ghost predicate ServesSo(c: Client, events: seq<Event>) {
    if c.serving.Some? then ServedBy(events) == Some(c.serving.value.id) else ServedBy(events) == None
  }

  /** The connection stands as the events say, as long as the watcher is not over. */
  ghost predicate Follows(c: Client, serveOnly: bool, events: seq<Event>) {
    && SaysSo(c, serveOnly, events)
    && (!c.ended ==>
          && c.pending == PendingOf(events)
          && (c.seenInitial <==> Baselined(events))
          && (c.finished <==> Finishes in events)
          && ServesSo(c, events)
          && forall id | id in c.offers :: c.offers[id] == TypesOf(events, id))
  }

  lemma {:induction false} FirstOfferedIsAny(candidates: seq<Mime>, mimes: seq<Mime>)
    ensures FirstOffered(candidates, mimes).Some? <==> AnyOf(candidates, mimes)
  {
    FirstOfferedIsFirst(candidates, mimes);
    if FirstOffered(candidates, mimes).Some? {
      var mime := FirstOffered(candidates, mimes).value;
      assert exists i | 0 <= i < |candidates| :: candidates[i] == mime && mime in mimes;
    }
  }

  lemma ChosenKind(mimes: seq<Mime>)
    ensures Chosen(mimes).Marked? <==> SENSITIVE_MIME in mimes
    ensures Chosen(mimes).Text? <==> OffersText(mimes)
    ensures Chosen(mimes).Image? <==> OffersImage(mimes)
  {
    FirstOfferedIsAny(TEXT_MIMES, mimes);
    FirstOfferedIsAny(IMAGE_MIMES, mimes);
  }

  lemma ReadSays(c: Client, id: Id, read: Read)
    requires id in c.offers
    ensures var mimes, after := c.offers[id], ReadAndDestroyed(c, id, read);
            if (OffersText(mimes) || OffersImage(mimes)) && read.Broken? then after == c.(ended := true)
            else after == Destroyed(c, id).(reports := c.reports + Said(mimes, read))
  {
    ChosenKind(c.offers[id]);
  }

  lemma FinishesMore(events: seq<Event>)
    requires events != []
    ensures Finishes in events <==> Finishes in events[..|events| - 1] || events[|events| - 1] == Finishes
  {
    assert events == events[..|events| - 1] + [events[|events| - 1]];
  }

  /** What concerns sources changes nothing about offers. */
  lemma OffersAside(serveOnly: bool, events: seq<Event>)
    requires events != []
    requires var e := events[|events| - 1]; e.Writes? || e.Cancels? || e.Releases?
    ensures var init := events[..|events| - 1];
            && (forall id :: TypesOf(events, id) == TypesOf(init, id))
            && PendingOf(events) == PendingOf(init) && (Baselined(events) <==> Baselined(init))
            && (Over(serveOnly, events) <==> Over(serveOnly, init)) && ReportsBy(serveOnly, events) == ReportsBy(serveOnly, init)
  {
  }

  /** What concerns selections by others changes nothing about sources, and describes nothing. */
  lemma SourcesAside(serveOnly: bool, events: seq<Event>)
    requires events != []
    requires var e := events[|events| - 1]; e.Selects? || e.SelectsPrimary?
    ensures var init := events[..|events| - 1];
            && (forall id :: TypesOf(events, id) == TypesOf(init, id))
            && ServedBy(events) == ServedBy(init) && SelectionsBy(serveOnly, events) == SelectionsBy(serveOnly, init)
            && (Over(serveOnly, events) <==> Over(serveOnly, init)) && ReportsBy(serveOnly, events) == ReportsBy(serveOnly, init)
  {
  }

  lemma OfferFollows(w: World, serveOnly: bool, events: seq<Event>)
    requires events != [] && Follows(w.client, serveOnly, events[..|events| - 1]) && !w.client.ended
    requires OffersSound(w) && Allowed(w, events[|events| - 1])
    requires var e := events[|events| - 1]; e.DataOffer? || e.MimeOf?
    ensures Follows(Step(w, events[|events| - 1]).client, serveOnly, events)
  {
    FinishesMore(events);
  }

  lemma SelectsFollows(w: World, serveOnly: bool, events: seq<Event>)
    requires events != [] && Follows(w.client, serveOnly, events[..|events| - 1]) && !w.client.ended
    requires OffersSound(w) && Allowed(w, events[|events| - 1])
    requires var e := events[|events| - 1]; e.Selects?
    ensures Follows(Step(w, events[|events| - 1]).client, serveOnly, events)
  {
    FinishesMore(events);
    SourcesAside(serveOnly, events);
  }

  lemma PrimaryFollows(w: World, serveOnly: bool, events: seq<Event>)
    requires events != [] && Follows(w.client, serveOnly, events[..|events| - 1]) && !w.client.ended
    requires OffersSound(w) && Allowed(w, events[|events| - 1])
    requires var e := events[|events| - 1]; e.SelectsPrimary?
    ensures Follows(Step(w, events[|events| - 1]).client, serveOnly, events)
  {
    FinishesMore(events);
    SourcesAside(serveOnly, events);
  }

  lemma WritesFollows(w: World, serveOnly: bool, events: seq<Event>)
    requires events != [] && Follows(w.client, serveOnly, events[..|events| - 1]) && !w.client.ended
    requires OffersSound(w) && Allowed(w, events[|events| - 1])
    requires var e := events[|events| - 1]; e.Writes?
    ensures Follows(Step(w, events[|events| - 1]).client, serveOnly, events)
  {
    FinishesMore(events);
    OffersAside(serveOnly, events);
  }

  lemma CancelsFollows(w: World, serveOnly: bool, events: seq<Event>)
    requires events != [] && Follows(w.client, serveOnly, events[..|events| - 1]) && !w.client.ended
    requires OffersSound(w) && Allowed(w, events[|events| - 1])
    requires var e := events[|events| - 1]; e.Cancels?
    ensures Follows(Step(w, events[|events| - 1]).client, serveOnly, events)
  {
    FinishesMore(events);
    OffersAside(serveOnly, events);
  }

  lemma ReleasesFollows(w: World, serveOnly: bool, events: seq<Event>)
    requires events != [] && Follows(w.client, serveOnly, events[..|events| - 1]) && !w.client.ended
    requires OffersSound(w) && Allowed(w, events[|events| - 1])
    requires var e := events[|events| - 1]; e.Releases?
    ensures Follows(Step(w, events[|events| - 1]).client, serveOnly, events)
  {
    FinishesMore(events);
    OffersAside(serveOnly, events);
  }

  lemma FinishFollows(w: World, serveOnly: bool, events: seq<Event>)
    requires events != [] && Follows(w.client, serveOnly, events[..|events| - 1]) && !w.client.ended
    requires OffersSound(w) && Allowed(w, events[|events| - 1])
    requires var e := events[|events| - 1]; e.Finishes?
    ensures Follows(Step(w, events[|events| - 1]).client, serveOnly, events)
  {
    FinishesMore(events);
  }

  lemma TurnFollows(w: World, serveOnly: bool, events: seq<Event>)
    requires events != [] && Follows(w.client, serveOnly, events[..|events| - 1]) && !w.client.ended
    requires OffersSound(w) && Allowed(w, events[|events| - 1])
    requires var e := events[|events| - 1]; e.Turns?
    ensures Follows(Step(w, events[|events| - 1]).client, serveOnly, events)
  {
    FinishesMore(events);
    var c := w.client;
    if !c.finished && c.pending.Offer? {
      ReadSays(c.(pending := NoNews), c.pending.id, events[|events| - 1].read);
    }
  }

  lemma OverFollows(w: World, serveOnly: bool, events: seq<Event>)
    requires events != [] && Follows(w.client, serveOnly, events[..|events| - 1]) && w.client.ended
    ensures Follows(Step(w, events[|events| - 1]).client, serveOnly, events)
  {
  }

  lemma StepFollows(w: World, serveOnly: bool, events: seq<Event>)
    requires events != [] && Follows(w.client, serveOnly, events[..|events| - 1])
    requires (OffersSound(w) || w.client.ended) && Allowed(w, events[|events| - 1])
    ensures Follows(Step(w, events[|events| - 1]).client, serveOnly, events)
  {
    if w.client.ended {
      OverFollows(w, serveOnly, events);
    } else {
      match events[|events| - 1]
      case DataOffer(_) => OfferFollows(w, serveOnly, events);
      case MimeOf(_, _) => OfferFollows(w, serveOnly, events);
      case Selects(_) => SelectsFollows(w, serveOnly, events);
      case SelectsPrimary(_) => PrimaryFollows(w, serveOnly, events);
      case Finishes => FinishFollows(w, serveOnly, events);
      case Turns(_) => TurnFollows(w, serveOnly, events);
      case Writes(_, _, _, _) => WritesFollows(w, serveOnly, events);
      case Cancels(_) => CancelsFollows(w, serveOnly, events);
      case Releases => ReleasesFollows(w, serveOnly, events);
    }
  }

  lemma {:induction false} RunFollows(serveOnly: bool, events: seq<Event>)
    requires AllowedRun(Start(serveOnly), events)
    ensures Follows(Run(Start(serveOnly), events).client, serveOnly, events)
  {
    if events != [] {
      var init := events[..|events| - 1];
      RunFollows(serveOnly, init);
      RunKeeps(serveOnly, init);
      StepFollows(Run(Start(serveOnly), init), serveOnly, events);
    }
  }

  /**
   * Over every run, the reports are exactly those of the turns that read an offer past the baseline, each
   * what the types described for that offer and the read make it; and the watcher is over exactly when a
   * turn found the connection finished or broke reading.
   */
  lemma ReportsExactly(serveOnly: bool, events: seq<Event>)
    requires AllowedRun(Start(serveOnly), events)
    ensures var c := Run(Start(serveOnly), events).client;
            c.reports == ReportsBy(serveOnly, events) && (c.ended <==> Over(serveOnly, events))
  {
    RunFollows(serveOnly, events);
  }

  /** Over every run, the selections requested are one for each write, and one to give up the last if it is still served. */
  lemma SelectsExactly(serveOnly: bool, events: seq<Event>)
    requires AllowedRun(Start(serveOnly), events)
    ensures var c := Run(Start(serveOnly), events).client;
            && c.selections == SelectionsBy(serveOnly, events)
            && (!c.ended ==> (c.serving.Some? <==> ServedBy(events).Some?))
            && (!c.ended && c.serving.Some? ==> ServedBy(events) == Some(c.serving.value.id))
  {
    RunFollows(serveOnly, events);
  }
}
