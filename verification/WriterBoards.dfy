/**
 * What the clipboard holds and when it is served, over every interleaving of the clipboard writer of
 * crates/asli-app/src/clipboard_io.rs, in terms of what the writer took in each turn.
 */
module WriterBoards {
  import opened Options
  import opened ClipboardWriter
  import opened WriterRuns

  /** What the writer took in its latest turn: the first piece received and those drained behind it. */
  ghost function TurnTook(events: seq<Event>): seq<Work> {
    if events == [] then []
    else
      var init, e := events[..|events| - 1], events[|events| - 1];
      var w := Run(START, init);
      if e.Receives? && w.writer.Waiting? && w.inbox != [] then [w.inbox[0]]
      else if e.DrainsOne? && w.writer.Draining? && w.inbox != [] then TurnTook(init) + [w.inbox[0]]
      else TurnTook(init)
  }

  /** The clipboard, by what was done to it: a copy by somebody else, a turn's last write, or its clear. */
  ghost function BoardBy(events: seq<Event>): Board {
    if events == [] then NotOurs
    else
      var init, e := events[..|events| - 1], events[|events| - 1];
      var w, took := Run(START, init), TurnTook(init);
      if e.ForeignCopy? then NotOurs
      else if e.AppliesWrite? && w.writer.Writing? && LastWritten(took).Some? then
        Ours(LastWritten(took).value.content, LastWritten(took).value.stamp)
      else if e.AppliesClear? && w.writer.Clearing? && EndsCleared(took, w.generation) then NotOurs
      else BoardBy(init)
  }

  /** Whether the writer serves: since a turn that wrote and was not cleared at its end, until it was woken or failed. */
  ghost predicate Serves(events: seq<Event>) {
    events != []
    && var init, e := events[..|events| - 1], events[|events| - 1];
       var w, took := Run(START, init), TurnTook(init);
       if e.AppliesClear? && w.writer.Clearing? then LastWritten(took).Some? && !EndsCleared(took, w.generation)
       else Serves(init) && !(e.Wakes? && w.flag) && !e.ServingFails?
  }

  /** Whether the flag is set: a thread set it, and the writer did not reset it since. */
  ghost predicate Flagged(events: seq<Event>) {
    events != []
    && var init, e := events[..|events| - 1], events[|events| - 1];
       var w := Run(START, init);
       if Signalling(w, e) then true
       else if e.Resets? && w.writer.Received? then false
       else Flagged(init)
  }

  /** The writer's burst is what its turn took. */
  ghost predicate InHand(writer: Writer, took: seq<Work>) {
    match writer
    case Received(first) => took == [first]
    case Draining(burst) => burst == PushedAll(took)
    case Writing(burst) => burst == PushedAll(took)
    case Clearing(burst) => burst == PushedAll(took)
    case _ => true
  }

  lemma InHandStep(w: World, e: Event, before: seq<Work>, after: seq<Work>)
    requires InHand(w.writer, before)
    requires after == if e.Receives? && w.writer.Waiting? && w.inbox != [] then [w.inbox[0]]
                      else if e.DrainsOne? && w.writer.Draining? && w.inbox != [] then before + [w.inbox[0]]
                      else before
    ensures InHand(Step(w, e).writer, after)
  {
    if e.DrainsOne? && w.writer.Draining? && w.inbox != [] {
      PushedOneMore(before, w.inbox[0]);
    }
    if e.Resets? && w.writer.Received? {
      assert [w.writer.first][..0] == [];
    }
  }

  lemma {:induction false} TurnHolds(events: seq<Event>)
    ensures InHand(Run(START, events).writer, TurnTook(events))
  {
    if events != [] {
      var init := events[..|events| - 1];
      TurnHolds(init);
      InHandStep(Run(START, init), events[|events| - 1], TurnTook(init), TurnTook(events));
    }
  }

  ghost predicate Stands(w: World, events: seq<Event>) {
    w.board == BoardBy(events) && (w.writer.Serving? <==> Serves(events)) && (w.flag <==> Flagged(events))
  }

  lemma WritingStands(w: World, events: seq<Event>)
    requires events != [] && w == Run(START, events[..|events| - 1]) && Stands(w, events[..|events| - 1])
    requires events[|events| - 1].AppliesWrite? || events[|events| - 1].AppliesClear?
    ensures Stands(Step(w, events[|events| - 1]), events)
  {
    var init := events[..|events| - 1];
    TurnHolds(init);
    BatchMeaning(TurnTook(init));
  }

  lemma OthersStand(w: World, events: seq<Event>)
    requires events != [] && w == Run(START, events[..|events| - 1]) && Stands(w, events[..|events| - 1])
    requires !events[|events| - 1].AppliesWrite? && !events[|events| - 1].AppliesClear?
    ensures Stands(Step(w, events[|events| - 1]), events)
  {
  }

  /**
   * Over every interleaving, the clipboard holds the last write of the latest turn that applied one, unless
   * somebody else copied or a turn that ended in a clear still due cleared it since; the writer serves
   * exactly since a turn that wrote and was not cleared, until it is woken or fails; and the flag is set
   * exactly since a thread set it, until the writer resets it.
   */
  lemma {:induction false} BoardExactly(events: seq<Event>)
    ensures var w := Run(START, events);
            && w.board == BoardBy(events) && (w.writer.Serving? <==> Serves(events)) && (w.flag <==> Flagged(events))
  {
    if events != [] {
      var w := Run(START, events[..|events| - 1]);
      BoardExactly(events[..|events| - 1]);
      if events[|events| - 1].AppliesWrite? || events[|events| - 1].AppliesClear? {
        WritingStands(w, events);
      } else {
        OthersStand(w, events);
      }
    }
  }
}
