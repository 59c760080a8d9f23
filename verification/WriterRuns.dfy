/**
 * The clipboard writer under every interleaving, crates/asli-app/src/clipboard_io.rs: any number of
 * threads that each take a generation, send and then set the flag, and the writer that receives,
 * resets the flag, drains, applies and serves until the flag is set.
 */
module WriterRuns {
  import opened Options
  import opened ClipboardWriter

  /** A queueing thread between taking its generation and sending, or between sending and the flag. */
  datatype Task = ToSend(work: Work) | ToSignal(work: Work)

  /** Where the writer thread stands. */
  datatype Writer =
    | Waiting
    | Received(first: Work)
    | Draining(burst: Burst)
    | Writing(burst: Burst)
    | Clearing(burst: Burst)
    | Serving

  /**
   * `sent` and `taken` are everything ever sent to the writer and everything it took out; `clearable`
   * are the generations of concealed writes whose queueing is over, so their timers may be running.
   */
  datatype World = World(
    generation: nat,
    flag: bool,
    inbox: seq<Work>,
    tasks: map<TaskId, Task>,
    used: set<TaskId>,
    clearable: set<nat>,
    writer: Writer,
    board: Board,
    sent: seq<Work>,
    taken: seq<Work>)

  datatype Event =
    | Queues(task: TaskId, content: Content, concealed: bool)
    | TimerFires(task: TaskId, scheduledFor: nat)
    | Sends(task: TaskId)
    | Signals(task: TaskId)
    | Receives
    | Resets
    | DrainsOne
    | FindsEmpty
    | AppliesWrite
    | AppliesClear
    | Wakes
    | ServingFails
    | ForeignCopy
    | ObservesCopy

  const START: World := World(0, false, [], map[], {}, {}, Waiting, NotOurs, [], [])

  function NewTask(w: World, t: TaskId, work: Work): World {
    w.(tasks := w.tasks[t := ToSend(work)], used := w.used + {t})
  }

  function QueueStep(w: World, e: Event): World {
    match e
    case Queues(t, content, concealed) =>
      if t in w.used then w
      else NewTask(w.(generation := w.generation + 1), t, Write(t, content, concealed, w.generation + 1))
    case TimerFires(t, scheduledFor) =>
      if t in w.used || scheduledFor !in w.clearable then w
      else NewTask(w, t, ClearIfUnchanged(t, scheduledFor))
    case Sends(t) =>
      if t !in w.tasks || w.tasks[t].ToSignal? then w
      else
        var work := w.tasks[t].work;
        w.(inbox := w.inbox + [work], sent := w.sent + [work], tasks := w.tasks[t := ToSignal(work)])
    case Signals(t) =>
      if t !in w.tasks || w.tasks[t].ToSend? then w
      else
        var work := w.tasks[t].work;
        w.(flag := true, tasks := w.tasks - {t},
           clearable := if work.Write? && work.concealed then w.clearable + {work.stamp} else w.clearable)
    case ForeignCopy => w.(board := NotOurs)
    case ObservesCopy => w.(generation := w.generation + 1)
    case _ => w
  }

  function TakeFirst(w: World): World
    requires w.inbox != []
  {
    w.(inbox := w.inbox[1..], taken := w.taken + [w.inbox[0]])
  }

  function WriterStep(w: World, e: Event): World {
    match e
    case Receives =>
      if !w.writer.Waiting? || w.inbox == [] then w else TakeFirst(w).(writer := Received(w.inbox[0]))
    case Resets =>
      if !w.writer.Received? then w
      else w.(flag := false, writer := Draining(Pushed(NOTHING, w.writer.first)))
    case DrainsOne =>
      if !w.writer.Draining? || w.inbox == [] then w
      else TakeFirst(w).(writer := Draining(Pushed(w.writer.burst, w.inbox[0])))
    case FindsEmpty =>
      if !w.writer.Draining? || w.inbox != [] then w else w.(writer := Writing(w.writer.burst))
    case AppliesWrite =>
      if !w.writer.Writing? then w
      else
        w.(board := AppliedIf(w.board, w.writer.burst.write, w.generation), writer := Clearing(w.writer.burst))
    case AppliesClear =>
      if !w.writer.Clearing? then w
      else
        w.(board := AppliedIf(w.board, w.writer.burst.clear, w.generation),
           writer := if Holding(w.writer.burst, w.generation) then Serving else Waiting)
    case Wakes => if !w.writer.Serving? || !w.flag then w else w.(writer := Waiting)
    case ServingFails => if !w.writer.Serving? then w else w.(writer := Waiting)
    case _ => w
  }

  function Step(w: World, e: Event): World {
    WriterStep(QueueStep(w, e), e)
  }

  function Run(w: World, events: seq<Event>): World {
    if events == [] then w else Step(Run(w, events[..|events| - 1]), events[|events| - 1])
  }

  // ------------------------------------------------------------------ no lost wakeup

  ghost predicate SentNotSignalled(w: World) {
    exists t | t in w.tasks :: w.tasks[t].ToSignal? && w.tasks[t].work in w.inbox
  }

  predicate PastTheDrain(w: World) {
    w.writer.Writing? || w.writer.Clearing? || w.writer.Serving?
  }

  /** Past the drain, whatever waits was sent since: its flag is set or about to be. */
  ghost predicate Signalled(w: World) {
    && w.tasks.Keys <= w.used
    && (PastTheDrain(w) && !w.flag ==>
          forall i | 0 <= i < |w.inbox| ::
            w.inbox[i].task in w.tasks && w.tasks[w.inbox[i].task] == ToSignal(w.inbox[i]))
    && (forall t | t in w.tasks :: w.tasks[t].work.task == t)
  }

  ghost predicate Conserved(w: World) {
    w.taken + w.inbox == w.sent
  }

  lemma QueueStepSignalled(w: World, e: Event)
    requires Signalled(w) && Conserved(w)
    ensures Signalled(QueueStep(w, e)) && Conserved(QueueStep(w, e))
  {
    if e.Sends? && e.task in w.tasks && w.tasks[e.task].ToSend? {
      var work := w.tasks[e.task].work;
      assert w.taken + (w.inbox + [work]) == (w.taken + w.inbox) + [work];
    }
  }

  lemma WriterStepSignalled(w: World, e: Event)
    requires Signalled(w) && Conserved(w)
    ensures Signalled(WriterStep(w, e)) && Conserved(WriterStep(w, e))
  {
    if w.inbox != [] {
      assert w.taken + [w.inbox[0]] + w.inbox[1..] == w.taken + w.inbox;
    }
  }

  lemma {:induction false} RunSignalled(events: seq<Event>)
    ensures Signalled(Run(START, events)) && Conserved(Run(START, events))
  {
    if events != [] {
      var before, e := Run(START, events[..|events| - 1]), events[|events| - 1];
      RunSignalled(events[..|events| - 1]);
      QueueStepSignalled(before, e);
      WriterStepSignalled(QueueStep(before, e), e);
    }
  }

  /**
   * Whenever the writer serves and work waits, the flag is set or the thread that sent that work has
   * yet to set it.
   */
  lemma NoLostWakeup(events: seq<Event>)
    requires var w := Run(START, events); w.writer.Serving? && w.inbox != []
    ensures var w := Run(START, events); w.flag || SentNotSignalled(w)
  {
    RunSignalled(events);
    var w := Run(START, events);
    if !w.flag {
      var t := w.inbox[0].task;
      assert t in w.tasks && w.tasks[t] == ToSignal(w.inbox[0]);
    }
  }

  /** Nothing is dropped, repeated or reordered on its way to the writer. */
  lemma NothingLost(events: seq<Event>)
    ensures var w := Run(START, events); w.taken + w.inbox == w.sent
  {
    RunSignalled(events);
  }

  /** Whether the writer thread is stuck until somebody queues something. */
  predicate Idle(w: World) {
    (w.writer.Waiting? && w.inbox == []) || (w.writer.Serving? && !w.flag)
  }

  lemma WaitingWorkHasATask(w: World)
    requires Signalled(w) && PastTheDrain(w) && !w.flag
    ensures w.inbox != [] ==> w.tasks != map[]
  {
    if w.inbox != [] {
      assert w.inbox[0].task in w.tasks;
    }
  }

  /** Once every thread has finished and the writer is idle, all that was ever sent has been taken. */
  lemma QuietMeansAllTaken(events: seq<Event>)
    requires var w := Run(START, events); w.tasks == map[] && Idle(w)
    ensures var w := Run(START, events); w.inbox == [] && w.taken == w.sent
  {
    RunSignalled(events);
    if Run(START, events).writer.Serving? {
      WaitingWorkHasATask(Run(START, events));
    }
  }

  // ------------------------------------------------------------------ a wakeup with nothing to do

  /** A thread sets the flag in this step. */
  predicate Signalling(w: World, e: Event) {
    e.Signals? && e.task in w.tasks && w.tasks[e.task].ToSignal?
  }

  /**
   * A signal is in time while the writer still has to reset the flag, or once it has drained and
   * something waits again.
   */
  predicate InTime(w: World, e: Event) {
    Signalling(w, e) ==>
      !w.writer.Draining? && (PastTheDrain(w) ==> w.inbox != [])
  }

  ghost predicate InTimeThroughout(events: seq<Event>) {
    forall n: nat | n < |events| :: InTime(Run(START, events[..n]), events[n])
  }

  predicate WorkBehindTheFlag(w: World) {
    && (w.writer.Draining? ==> !w.flag)
    && (PastTheDrain(w) && w.flag ==> w.inbox != [])
  }

  lemma StepKeepsWorkBehindTheFlag(w: World, e: Event)
    requires WorkBehindTheFlag(w) && InTime(w, e)
    ensures WorkBehindTheFlag(Step(w, e))
  {
  }

  lemma {:induction false} WakesToWork(events: seq<Event>)
    requires InTimeThroughout(events)
    ensures WorkBehindTheFlag(Run(START, events))
  {
    if events != [] {
      var init := events[..|events| - 1];
      assert forall n: nat | n < |init| :: init[..n] == events[..n] && init[n] == events[n];
      WakesToWork(init);
      StepKeepsWorkBehindTheFlag(Run(START, init), events[|events| - 1]);
    }
  }

  /** With every signal in time, serving ends on the flag only when work waits. */
  lemma ServingEndsForWork(events: seq<Event>)
    requires InTimeThroughout(events)
    requires var w := Run(START, events); w.writer.Serving? && w.flag
    ensures Run(START, events).inbox != []
  {
    WakesToWork(events);
  }

  lemma RunMore(events: seq<Event>, e: Event)
    ensures Run(START, events + [e]) == Step(Run(START, events), e)
  {
    assert (events + [e])[..|events|] == events;
  }

  lemma RunThree(events: seq<Event>, a: Event, b: Event, c: Event)
    ensures Run(START, events + [a] + [b] + [c]) == Step(Step(Step(Run(START, events), a), b), c)
  {
    RunMore(events, a);
    RunMore(events + [a], b);
    RunMore(events + [a] + [b], c);
  }

  lemma QueuedAndReceived(content: Content) returns (events: seq<Event>)
    ensures var work := Write(1, content, false, 1);
            Run(START, events)
            == World(1, false, [], map[1 := ToSignal(work)], {1}, {}, Received(work), NotOurs, [work], [work])
  {
    RunThree([], Queues(1, content, false), Sends(1), Receives);
    events := [] + [Queues(1, content, false)] + [Sends(1)] + [Receives];
    var work := Write(1, content, false, 1);
    var queued := Step(START, Queues(1, content, false));
    assert queued == START.(generation := 1, tasks := map[1 := ToSend(work)], used := {1});
    var sent := Step(queued, Sends(1));
    assert sent == queued.(inbox := [work], sent := [work], tasks := map[1 := ToSignal(work)]);
  }

  lemma LateSignal(w: World, work: Work)
    requires w.writer == Received(work) && work.Write? && !work.concealed
    requires w.tasks == map[work.task := ToSignal(work)] && w.inbox == []
    ensures var after := Step(Step(Step(w, Resets), Signals(work.task)), FindsEmpty);
            after == w.(flag := true, tasks := map[], writer := Writing(Burst(Some(work), None)))
    ensures !InTime(Step(w, Resets), Signals(work.task))
  {
    var reset := Step(w, Resets);
    assert reset == w.(flag := false, writer := Draining(Burst(Some(work), None)));
    assert Step(reset, Signals(work.task)) == reset.(flag := true, tasks := map[]);
  }

  lemma ServesAndWakes(w: World, work: Work)
    requires w.writer == Writing(Burst(Some(work), None)) && work.Write? && w.flag
    ensures var serving := Step(Step(w, AppliesWrite), AppliesClear);
            && serving == w.(board := Ours(work.content, work.stamp), writer := Serving)
            && Step(serving, Wakes) == serving.(writer := Waiting)
  {
  }

  predicate WritersOwn(e: Event) {
    e.Receives? || e.Resets? || e.DrainsOne? || e.FindsEmpty? || e.AppliesWrite? || e.AppliesClear? || e.Wakes?
  }

  predicate AllWritersOwn(events: seq<Event>) {
    forall i | 0 <= i < |events| :: WritersOwn(events[i])
  }

  lemma {:induction false} RunFront(w: World, e: Event, rest: seq<Event>)
    ensures Run(w, [e] + rest) == Run(Step(w, e), rest)
    decreases |rest|
  {
    if rest == [] {
      assert [e] + rest == [e] && [e][..0] == [];
    } else {
      var last := |rest| - 1;
      assert ([e] + rest)[..|rest|] == [e] + rest[..last];
      RunFront(w, e, rest[..last]);
    }
  }

  /** The promise broken: the writer serves, the flag ends that, and nothing waits for it. */
  predicate WakesToNothing(w: World) {
    w.writer.Serving? && w.flag && w.inbox == []
  }

  /** The writer, with no other thread taking a step, can come to that. */
  ghost predicate AloneWakesToNothing(w: World) {
    exists events :: AllWritersOwn(events) && WakesToNothing(Run(w, events))
  }

  function PushedOn(b: Burst, work: seq<Work>): Burst
    decreases |work|
  {
    if work == [] then b else PushedOn(Pushed(b, work[0]), work[1..])
  }

  /** The writer is past the reset, and the burst it has or ends up with is one it serves. */
  predicate EndsServed(w: World) {
    match w.writer
    case Draining(burst) => Holding(PushedOn(burst, w.inbox), w.generation)
    case Writing(burst) => Holding(burst, w.generation)
    case Clearing(burst) => Holding(burst, w.generation)
    case Serving => true
    case _ => false
  }

  /** What is left for the writer to do before it serves. */
  function Rank(w: World): nat {
    match w.writer
    case Draining(_) => 3 + |w.inbox|
    case Writing(_) => 2
    case Clearing(_) => 1
    case _ => 0
  }

  function NextAlone(w: World): Event {
    match w.writer
    case Draining(_) => if w.inbox == [] then FindsEmpty else DrainsOne
    case Writing(_) => AppliesWrite
    case _ => AppliesClear
  }

  /** The flag is set and the writer is past resetting it, with nothing left to find behind the drain. */
  predicate SetTooLate(w: World) {
    w.flag && (w.writer.Draining? || (PastTheDrain(w) && w.inbox == []))
  }

  lemma {:induction false} AloneItServes(w: World) returns (events: seq<Event>)
    requires SetTooLate(w) && EndsServed(w)
    ensures AllWritersOwn(events) && WakesToNothing(Run(w, events))
    decreases Rank(w)
  {
    events := [];
    if !w.writer.Serving? {
      var rest := AloneItServes(Step(w, NextAlone(w)));
      RunFront(w, NextAlone(w), rest);
      events := [NextAlone(w)] + rest;
    }
  }

  /** Nothing the writer does from here ends in a wakeup to nothing. */
  predicate Harmless(w: World) {
    WorkBehindTheFlag(w)
    || ((w.writer.Draining? || w.writer.Writing? || w.writer.Clearing?) && !EndsServed(w))
  }

  lemma OwnStepKeepsHarmless(w: World, e: Event)
    requires Harmless(w) && WritersOwn(e)
    ensures Harmless(Step(w, e))
  {
  }

  lemma {:induction false} HarmlessStays(w: World, events: seq<Event>)
    requires Harmless(w) && AllWritersOwn(events)
    ensures Harmless(Run(w, events)) && !WakesToNothing(Run(w, events))
  {
    if events != [] {
      HarmlessStays(w, events[..|events| - 1]);
      OwnStepKeepsHarmless(Run(w, events[..|events| - 1]), events[|events| - 1]);
    }
  }

  /**
   * Once a thread set the flag, the writer left to itself comes to serve with the flag set and nothing
   * waiting if and only if the signal was out of time and what the writer has in hand is served.
   */
  lemma WakesToNothingExactlyWhen(w: World, e: Event)
    requires Signalling(w, e)
    ensures AloneWakesToNothing(Step(w, e)) <==> !InTime(w, e) && EndsServed(w)
  {
    var after := Step(w, e);
    if !InTime(w, e) && EndsServed(w) {
      var events := AloneItServes(after);
      assert AllWritersOwn(events) && WakesToNothing(Run(after, events));
    } else {
      assert Harmless(after);
      forall events | AllWritersOwn(events)
        ensures !WakesToNothing(Run(after, events))
      {
        HarmlessStays(after, events);
      }
    }
  }

  lemma OutOfTime(before: seq<Event>, events: seq<Event>, e: Event)
    requires before + [e] <= events && !InTime(Run(START, before), e)
    ensures !InTimeThroughout(events)
  {
    assert events[..|before|] == (before + [e])[..|before|] == before;
    assert events[|before|] == e;
  }

  /**
   * One signal out of time is enough: the thread sets the flag after its write was taken and the flag
   * reset. The writer comes to serve with the flag set and nothing waiting, and the next thing it does
   * is to stop: its content is on the clipboard, every thread is done, and nobody serves it.
   */
  lemma LateSignalEndsServing(content: Content) returns (events: seq<Event>)
    ensures !InTimeThroughout(events)
    ensures var w := Run(START, events);
            && WakesToNothing(w) && w.board == Ours(content, 1) && w.tasks == map[]
            && Step(w, Wakes) == w.(writer := Waiting)
  {
    var received := QueuedAndReceived(content);
    var w := Run(START, received);
    var work := Write(1, content, false, 1);
    LateSignal(w, work);
    RunMore(received, Resets);
    RunThree(received, Resets, Signals(1), FindsEmpty);
    var drained := received + [Resets] + [Signals(1)] + [FindsEmpty];
    ServesAndWakes(Run(START, drained), work);
    RunMore(drained, AppliesWrite);
    RunMore(drained + [AppliesWrite], AppliesClear);
    events := drained + [AppliesWrite] + [AppliesClear];
    OutOfTime(received + [Resets], events, Signals(1));
  }

  // ------------------------------------------------------------------ what a clear may erase

  ghost predicate HasWrite(work: seq<Work>, stamp: nat) {
    exists i | 0 <= i < |work| :: work[i].Write? && work[i].stamp == stamp
  }

  ghost predicate StampsIncrease(work: seq<Work>) {
    forall i, j | 0 <= i < j < |work| && work[i].Write? && work[j].Write? :: work[i].stamp < work[j].stamp
  }

  /** Writes carry generations that were reached, clears those of writes sent before them. */
  ghost predicate Founded(work: seq<Work>, generation: nat) {
    forall i | 0 <= i < |work| ::
      if work[i].Write? then work[i].stamp <= generation else HasWrite(work[..i], work[i].scheduledFor)
  }

  ghost predicate TaskFounded(task: Task, sent: seq<Work>, generation: nat) {
    if task.work.Write? then
      task.work.stamp <= generation && (task.ToSignal? ==> HasWrite(sent, task.work.stamp))
    else HasWrite(sent, task.work.scheduledFor)
  }

  ghost predicate SendersSound(w: World) {
    && Founded(w.sent, w.generation)
    && (forall t | t in w.tasks :: TaskFounded(w.tasks[t], w.sent, w.generation))
    && (forall s | s in w.clearable :: HasWrite(w.sent, s))
  }

  /** Threads send in the order in which they took their generations. */
  ghost predicate InOrder(w: World, e: Event) {
    e.Sends? && e.task in w.tasks && w.tasks[e.task].ToSend? && w.tasks[e.task].work.Write? ==>
      forall i | 0 <= i < |w.sent| && w.sent[i].Write? :: w.sent[i].stamp < w.tasks[e.task].work.stamp
  }

  ghost predicate InOrderThroughout(events: seq<Event>) {
    forall n: nat | n < |events| :: InOrder(Run(START, events[..n]), events[n])
  }

  lemma StillHasWrite(work: seq<Work>, more: Work, stamp: nat)
    requires HasWrite(work, stamp)
    ensures HasWrite(work + [more], stamp)
  {
    var i :| 0 <= i < |work| && work[i].Write? && work[i].stamp == stamp;
    assert (work + [more])[i] == work[i];
  }

  lemma SentOneMore(sent: seq<Work>, more: Work, generation: nat)
    requires Founded(sent, generation)
    requires if more.Write? then more.stamp <= generation else HasWrite(sent, more.scheduledFor)
    ensures Founded(sent + [more], generation)
    ensures more.Write? ==> HasWrite(sent + [more], more.stamp)
  {
    var all := sent + [more];
    forall i | 0 <= i < |all|
      ensures if all[i].Write? then all[i].stamp <= generation else HasWrite(all[..i], all[i].scheduledFor)
    {
      assert i < |sent| ==> all[..i] == sent[..i] && all[i] == sent[i];
      assert i == |sent| ==> all[..i] == sent;
    }
    assert all[|sent|] == more;
  }

  lemma SendsKeeps(w: World, t: TaskId)
    requires SendersSound(w) && t in w.tasks && w.tasks[t].ToSend?
    ensures SendersSound(QueueStep(w, Sends(t)))
  {
    var work := w.tasks[t].work;
    SentOneMore(w.sent, work, w.generation);
    var after := QueueStep(w, Sends(t));
    forall u | u in after.tasks
      ensures TaskFounded(after.tasks[u], after.sent, after.generation)
    {
      if u != t {
        KeepsFounded(w.tasks[u], w.sent, work, w.generation);
      } else if work.ClearIfUnchanged? {
        StillHasWrite(w.sent, work, work.scheduledFor);
      }
    }
    forall s | s in after.clearable
      ensures HasWrite(after.sent, s)
    {
      StillHasWrite(w.sent, work, s);
    }
  }

  lemma KeepsFounded(task: Task, sent: seq<Work>, more: Work, generation: nat)
    requires TaskFounded(task, sent, generation)
    ensures TaskFounded(task, sent + [more], generation)
  {
    if task.work.ClearIfUnchanged? {
      StillHasWrite(sent, more, task.work.scheduledFor);
    } else if task.ToSignal? {
      StillHasWrite(sent, more, task.work.stamp);
    }
  }

  lemma QueueStepKeepsSenders(w: World, e: Event)
    requires SendersSound(w)
    ensures SendersSound(QueueStep(w, e))
  {
    if e.Sends? && e.task in w.tasks && w.tasks[e.task].ToSend? {
      SendsKeeps(w, e.task);
    }
  }

  /** The generation of the last write among this work. */
  function LastWrite(work: seq<Work>): Option<nat> {
    if work == [] then None
    else if work[|work| - 1].Write? then Some(work[|work| - 1].stamp)
    else LastWrite(work[..|work| - 1])
  }

  lemma LastWriteOneMore(work: seq<Work>, more: Work)
    ensures LastWrite(work + [more]) == if more.Write? then Some(more.stamp) else LastWrite(work)
  {
    assert (work + [more])[..|work|] == work;
  }

  /** What the writer took and has not yet applied. */
  function Pending(writer: Writer): Burst {
    match writer
    case Received(first) => Pushed(NOTHING, first)
    case Draining(burst) => burst
    case Writing(burst) => burst
    case _ => NOTHING
  }

  function PendingClear(writer: Writer): Option<Work> {
    if writer.Clearing? then writer.burst.clear else Pending(writer).clear
  }

  /** The clipboard, once the pending write is applied, holds the last write taken or nothing of ours. */
  ghost predicate WriterSound(w: World) {
    var b := Pending(w.writer);
    && (b.write.Some? ==> b.write.value.Write? && LastWrite(w.taken) == Some(b.write.value.stamp))
    && (b.write.None? && w.board.Ours? ==> LastWrite(w.taken) == Some(w.board.stamp))
    && (PendingClear(w.writer).Some? ==> PendingClear(w.writer).value in w.taken)
    && (w.writer.Clearing? && w.writer.burst.clear.Some? ==> w.writer.burst.clear.value.ClearIfUnchanged?)
    && (b.clear.Some? ==> b.clear.value.ClearIfUnchanged?)
  }

  lemma QueueStepKeepsWriter(w: World, e: Event)
    requires WriterSound(w)
    ensures WriterSound(QueueStep(w, e))
  {
  }

  lemma TakingKeepsWriter(w: World, e: Event)
    requires WriterSound(w) && w.inbox != [] && (e.Receives? || e.DrainsOne?)
    ensures WriterSound(WriterStep(w, e))
  {
    LastWriteOneMore(w.taken, w.inbox[0]);
  }

  lemma StepKeepsWriter(w: World, e: Event)
    requires WriterSound(w)
    ensures WriterSound(WriterStep(w, e))
  {
    if w.inbox != [] && (e.Receives? || e.DrainsOne?) {
      TakingKeepsWriter(w, e);
    }
  }

  lemma WriterKeepsSenders(w: World, e: Event)
    requires SendersSound(w)
    ensures SendersSound(WriterStep(w, e))
  {
  }

  lemma {:induction false} RunSound(events: seq<Event>)
    ensures SendersSound(Run(START, events)) && WriterSound(Run(START, events))
  {
    if events != [] {
      var w, e := Run(START, events[..|events| - 1]), events[|events| - 1];
      RunSound(events[..|events| - 1]);
      QueueStepKeepsSenders(w, e);
      WriterKeepsSenders(QueueStep(w, e), e);
      QueueStepKeepsWriter(w, e);
      StepKeepsWriter(QueueStep(w, e), e);
    }
  }

  /** Whether the next step of the writer is a clear that fires. */
  predicate AboutToClear(w: World) {
    w.writer.Clearing? && w.writer.burst.clear.Some? && Fires(w.writer.burst.clear.value, w.generation)
  }

  function Scheduled(w: World): nat
    requires w.writer.Clearing? && w.writer.burst.clear.Some? && w.writer.burst.clear.value.ClearIfUnchanged?
  {
    w.writer.burst.clear.value.scheduledFor
  }

  /** The clear takes away the write it was scheduled for, or nothing of ours. */
  predicate ErasesOnlyItsOwn(w: World)
    requires AboutToClear(w)
  {
    w.board.Ours? ==> w.board.stamp == Scheduled(w)
  }

  /** The write with this generation is there, and no write was sent behind it. */
  ghost predicate NothingBehind(work: seq<Work>, stamp: nat) {
    exists i | 0 <= i < |work| ::
      && work[i].Write? && work[i].stamp == stamp
      && forall j | i < j < |work| :: work[j].ClearIfUnchanged?
  }

  lemma {:induction false} NothingBehindIsLast(work: seq<Work>, stamp: nat)
    ensures NothingBehind(work, stamp) <==> LastWrite(work) == Some(stamp)
  {
    if work != [] {
      var init, last := work[..|work| - 1], work[|work| - 1];
      NothingBehindIsLast(init, stamp);
      if last.ClearIfUnchanged? {
        ClearBehind(init, last, stamp);
        assert init + [last] == work;
      } else if last.stamp == stamp {
        assert work[|work| - 1] == last;
      }
    }
  }

  /** A clear behind changes nothing about that. */
  lemma ClearBehind(work: seq<Work>, clear: Work, stamp: nat)
    requires clear.ClearIfUnchanged?
    ensures NothingBehind(work, stamp) <==> NothingBehind(work + [clear], stamp)
  {
    var more := work + [clear];
    if NothingBehind(work, stamp) {
      var i :| 0 <= i < |work| && work[i].Write? && work[i].stamp == stamp
        && forall j | i < j < |work| :: work[j].ClearIfUnchanged?;
      assert more[i] == work[i];
      assert forall j | i < j < |more| :: more[j] == if j < |work| then work[j] else clear;
    }
    if NothingBehind(more, stamp) {
      var i :| 0 <= i < |more| && more[i].Write? && more[i].stamp == stamp
        && forall j | i < j < |more| :: more[j].ClearIfUnchanged?;
      assert work[i] == more[i];
      assert forall j | i < j < |work| :: work[j] == more[j];
    }
  }

  /**
   * Over every run, in whatever order threads send: a clear that is about to fire takes away only the
   * write it was scheduled for if and only if nothing of ours is there or no write that was taken was
   * sent behind that one.
   */
  lemma ErasesOnlyItsOwnExactlyWhen(events: seq<Event>)
    requires AboutToClear(Run(START, events))
    ensures var w := Run(START, events);
            ErasesOnlyItsOwn(w) <==> w.board.NotOurs? || NothingBehind(w.taken, Scheduled(w))
  {
    RunSound(events);
    var w := Run(START, events);
    NothingBehindIsLast(w.taken, Scheduled(w));
  }

  // ------------------------------------------------------------------ one order that is always enough

  lemma OneMoreIncreases(sent: seq<Work>, more: Work)
    requires StampsIncrease(sent)
    requires more.Write? ==> forall i | 0 <= i < |sent| && sent[i].Write? :: sent[i].stamp < more.stamp
    ensures StampsIncrease(sent + [more])
  {
  }

  lemma StepIncreases(w: World, e: Event)
    requires StampsIncrease(w.sent) && InOrder(w, e)
    ensures StampsIncrease(Step(w, e).sent)
  {
    if e.Sends? && e.task in w.tasks && w.tasks[e.task].ToSend? {
      OneMoreIncreases(w.sent, w.tasks[e.task].work);
    }
  }

  lemma InOrderBefore(events: seq<Event>)
    requires InOrderThroughout(events) && events != []
    ensures var init := events[..|events| - 1];
            InOrderThroughout(init) && InOrder(Run(START, init), events[|events| - 1])
  {
    var init := events[..|events| - 1];
    forall n: nat | n < |init|
      ensures InOrder(Run(START, init[..n]), init[n])
    {
      assert init[..n] == events[..n];
    }
  }

  lemma {:induction false} RunIncreases(events: seq<Event>)
    requires InOrderThroughout(events)
    ensures StampsIncrease(Run(START, events).sent)
  {
    if events != [] {
      InOrderBefore(events);
      RunIncreases(events[..|events| - 1]);
      StepIncreases(Run(START, events[..|events| - 1]), events[|events| - 1]);
    }
  }

  lemma {:induction false} LastWriteIsNewest(work: seq<Work>, stamp: nat)
    requires StampsIncrease(work) && HasWrite(work, stamp)
    ensures LastWrite(work).Some? && stamp <= LastWrite(work).value && HasWrite(work, LastWrite(work).value)
  {
    var init, last := work[..|work| - 1], work[|work| - 1];
    var i :| 0 <= i < |work| && work[i].Write? && work[i].stamp == stamp;
    if !last.Write? {
      assert init[i] == work[i];
      LastWriteIsNewest(init, stamp);
      StillHasWrite(init, last, LastWrite(init).value);
      assert init + [last] == work;
    }
  }

  lemma TakenIsFounded(taken: seq<Work>, inbox: seq<Work>, generation: nat, clear: Work)
    requires Founded(taken + inbox, generation) && clear in taken && clear.ClearIfUnchanged?
    ensures HasWrite(taken, clear.scheduledFor)
    ensures forall i | 0 <= i < |taken| && taken[i].Write? :: taken[i].stamp <= generation
  {
    var sent := taken + inbox;
    assert forall j | 0 <= j < |taken| :: sent[j] == taken[j];
    var k :| 0 <= k < |taken| && taken[k] == clear;
    assert HasWrite(sent[..k], sent[k].scheduledFor);
    var i :| 0 <= i < k && sent[..k][i].Write? && sent[..k][i].stamp == clear.scheduledFor;
    assert taken[i] == sent[..k][i];
  }

  lemma NewestHasNothingBehind(taken: seq<Work>, stamp: nat)
    requires StampsIncrease(taken) && HasWrite(taken, stamp)
    requires forall i | 0 <= i < |taken| && taken[i].Write? :: taken[i].stamp <= stamp
    ensures NothingBehind(taken, stamp)
  {
    LastWriteIsNewest(taken, stamp);
    NothingBehindIsLast(taken, stamp);
  }

  /**
   * When threads send in the order in which they took their generations that is always so: a clear
   * that fires erases only the write it was scheduled for.
   */
  lemma ClearErasesOnlyItsOwn(events: seq<Event>)
    requires InOrderThroughout(events) && AboutToClear(Run(START, events))
    ensures ErasesOnlyItsOwn(Run(START, events))
  {
    RunSound(events);
    RunSignalled(events);
    RunIncreases(events);
    ErasesOnlyItsOwnExactlyWhen(events);
    var w := Run(START, events);
    TakenIsFounded(w.taken, w.inbox, w.generation, w.writer.burst.clear.value);
    assert forall i | 0 <= i < |w.taken| :: w.sent[i] == w.taken[i];
    NewestHasNothingBehind(w.taken, Scheduled(w));
  }

  // ------------------------------------------------------------------ when a clear is stale

  /** The steps that count: a write queued, and a foreign copy observed. */
  predicate Counts(w: World, e: Event) {
    e.ObservesCopy? || (e.Queues? && e.task !in w.used)
  }

  function Counted(w: World, events: seq<Event>): nat {
    if events == [] then 0
    else
      var init, e := events[..|events| - 1], events[|events| - 1];
      Counted(w, init) + if Counts(Run(w, init), e) then 1 else 0
  }

  lemma StepCounts(w: World, e: Event)
    ensures Step(w, e).generation == w.generation + if Counts(w, e) then 1 else 0
  {
  }

  lemma {:induction false} GenerationCounts(w: World, events: seq<Event>)
    ensures Run(w, events).generation == w.generation + Counted(w, events)
  {
    if events != [] {
      GenerationCounts(w, events[..|events| - 1]);
      StepCounts(Run(w, events[..|events| - 1]), events[|events| - 1]);
    }
  }

  /**
   * A clear scheduled for the generation that stands now fires later if and only if no write was queued
   * and no foreign copy observed in between.
   */
  lemma FiresExactlyWhenNothingCounted(w: World, events: seq<Event>, clear: Work)
    requires clear.ClearIfUnchanged? && clear.scheduledFor == w.generation
    ensures Fires(clear, Run(w, events).generation) <==> Counted(w, events) == 0
  {
    GenerationCounts(w, events);
  }

  /** Once it is stale it stays so. */
  lemma NoClearAfterABump(w: World, e: Event, events: seq<Event>, clear: Work)
    requires clear.ClearIfUnchanged? && clear.scheduledFor <= w.generation && Counts(w, e)
    ensures !Fires(clear, Run(Step(w, e), events).generation)
  {
    StepCounts(w, e);
    GenerationCounts(Step(w, e), events);
  }

  lemma OneConcealedQueued(secret: Content) returns (events: seq<Event>)
    ensures ObservesCopy !in events
    ensures var work := Write(1, secret, true, 1);
            Run(START, events) == World(1, true, [work], map[], {1}, {1}, Waiting, NotOurs, [work], [])
  {
    QueuedWhole(secret);
    RunThree([], Queues(1, secret, true), Sends(1), Signals(1));
    events := [] + [Queues(1, secret, true)] + [Sends(1)] + [Signals(1)];
  }

  lemma OneConcealedDrained(secret: Content) returns (events: seq<Event>)
    ensures ObservesCopy !in events
    ensures var work := Write(1, secret, true, 1);
            Run(START, events)
            == World(1, false, [], map[], {1}, {1}, Writing(Burst(Some(work), None)), NotOurs, [work], [work])
  {
    var queued := OneConcealedQueued(secret);
    AloneTaken(Run(START, queued), Write(1, secret, true, 1));
    RunThree(queued, Receives, Resets, FindsEmpty);
    events := queued + [Receives] + [Resets] + [FindsEmpty];
  }

  lemma OneConcealedServed(secret: Content) returns (events: seq<Event>)
    ensures ObservesCopy !in events
    ensures var work := Write(1, secret, true, 1);
            Run(START, events)
            == World(1, false, [], map[], {1}, {1}, Serving, Ours(secret, 1), [work], [work])
  {
    var drained := OneConcealedDrained(secret);
    RunMore(drained, AppliesWrite);
    RunMore(drained + [AppliesWrite], AppliesClear);
    events := drained + [AppliesWrite] + [AppliesClear];
  }

  lemma QueuedWhole(secret: Content)
    ensures var work := Write(1, secret, true, 1);
            Step(Step(Step(START, Queues(1, secret, true)), Sends(1)), Signals(1))
            == World(1, true, [work], map[], {1}, {1}, Waiting, NotOurs, [work], [])
  {
    var work := Write(1, secret, true, 1);
    var queued := Step(START, Queues(1, secret, true));
    assert queued == START.(generation := 1, tasks := map[1 := ToSend(work)], used := {1});
    var sent := Step(queued, Sends(1));
    assert sent == queued.(inbox := [work], sent := [work], tasks := map[1 := ToSignal(work)]);
  }

  lemma AloneTaken(w: World, work: Work)
    requires w.writer.Waiting? && w.inbox == [work] && work.Write? && w.taken == []
    ensures var drained := Step(Step(Step(w, Receives), Resets), FindsEmpty);
            drained == w.(inbox := [], taken := [work], flag := false, writer := Writing(Burst(Some(work), None)))
  {
  }

  /** A clear alone in the inbox of a serving writer, up to the drain. */
  lemma ClearReceived(events: seq<Event>, clear: Work) returns (more: seq<Event>)
    requires var w := Run(START, events); w.writer.Serving? && w.flag && w.inbox == [clear] && clear.ClearIfUnchanged?
    ensures var w, after := Run(START, events), Run(START, more);
            && after.writer == Draining(Burst(None, Some(clear))) && after.inbox == []
            && after.board == w.board && after.generation == w.generation
    ensures (ForeignCopy in more <==> ForeignCopy in events) && (ObservesCopy in more <==> ObservesCopy in events)
  {
    RunThree(events, Wakes, Receives, Resets);
    more := events + [Wakes] + [Receives] + [Resets];
    var woken := Step(Run(START, events), Wakes);
    assert woken == Run(START, events).(writer := Waiting);
    var received := Step(woken, Receives);
    assert received.writer == Received(clear) && received.inbox == [] && received.board == woken.board;
  }

  /** And to its own turn. */
  lemma ClearDrained(events: seq<Event>, clear: Work) returns (more: seq<Event>)
    requires Run(START, events).writer == Draining(Burst(None, Some(clear))) && Run(START, events).inbox == []
    ensures var w, after := Run(START, events), Run(START, more);
            && after.writer == Clearing(Burst(None, Some(clear)))
            && after.board == w.board && after.generation == w.generation
    ensures (ForeignCopy in more <==> ForeignCopy in events) && (ObservesCopy in more <==> ObservesCopy in events)
  {
    RunMore(events, FindsEmpty);
    RunMore(events + [FindsEmpty], AppliesWrite);
    more := events + [FindsEmpty] + [AppliesWrite];
  }

  lemma CopiedThenTimed(secret: Content) returns (events: seq<Event>)
    ensures ForeignCopy in events && ObservesCopy !in events
    ensures var w := Run(START, events);
            && w.writer.Serving? && w.flag && w.inbox == [ClearIfUnchanged(2, 1)]
            && w.board == NotOurs && w.generation == 1
  {
    var served := OneConcealedServed(secret);
    TimerAfterCopy(Run(START, served));
    RunThree(served, ForeignCopy, TimerFires(2, 1), Sends(2));
    var sent := served + [ForeignCopy] + [TimerFires(2, 1)] + [Sends(2)];
    RunMore(sent, Signals(2));
    events := sent + [Signals(2)];
  }

  /**
   * A foreign copy that is never observed, as one too large to read is not, leaves the clear of an
   * earlier concealed write to fire: it finds that nothing of ours is there.
   */
  lemma UncountedCopyLeavesTheClear(secret: Content) returns (events: seq<Event>)
    ensures ForeignCopy in events && ObservesCopy !in events
    ensures var w := Run(START, events);
            AboutToClear(w) && Scheduled(w) == 1 && w.board == NotOurs
  {
    var timed := CopiedThenTimed(secret);
    var received := ClearReceived(timed, ClearIfUnchanged(2, 1));
    events := ClearDrained(received, ClearIfUnchanged(2, 1));
  }

  lemma TimerAfterCopy(w: World)
    requires w.used == {1} && w.clearable == {1} && w.tasks == map[] && w.inbox == [] && w.writer.Serving?
    ensures var sent := Step(Step(Step(w, ForeignCopy), TimerFires(2, 1)), Sends(2));
            && sent.inbox == [ClearIfUnchanged(2, 1)] && sent.tasks == map[2 := ToSignal(ClearIfUnchanged(2, 1))]
            && sent.writer.Serving? && sent.board == NotOurs && sent.generation == w.generation
            && Step(sent, Signals(2)) == sent.(flag := true, tasks := map[])
  {
    var timed := Step(Step(w, ForeignCopy), TimerFires(2, 1));
    assert timed.tasks == map[2 := ToSend(ClearIfUnchanged(2, 1))];
  }

  lemma BothQueued(plain: Content, secret: Content) returns (events: seq<Event>)
    ensures var first, second := Write(1, plain, false, 1), Write(2, secret, true, 2);
            Run(START, events)
            == START.(generation := 2, tasks := map[1 := ToSend(first), 2 := ToSignal(second)], used := {1, 2},
                      inbox := [second], sent := [second])
  {
    RunThree([], Queues(1, plain, false), Queues(2, secret, true), Sends(2));
    events := [] + [Queues(1, plain, false)] + [Queues(2, secret, true)] + [Sends(2)];
    var first, second := Write(1, plain, false, 1), Write(2, secret, true, 2);
    var one := Step(START, Queues(1, plain, false));
    assert one == START.(generation := 1, tasks := map[1 := ToSend(first)], used := {1});
    var two := Step(one, Queues(2, secret, true));
    assert two == START.(generation := 2, tasks := map[1 := ToSend(first), 2 := ToSend(second)], used := {1, 2});
  }

  lemma SecondSignalsFirstSends(w: World, first: Work, second: Work)
    requires w.tasks == map[1 := ToSend(first), 2 := ToSignal(second)] && w.used == {1, 2} && w.clearable == {}
    requires second.Write? && second.task == second.stamp == 2 && second.concealed && w.inbox == [second] && w.writer.Waiting?
    ensures var after := Step(Step(Step(w, Signals(2)), Sends(1)), TimerFires(3, 2));
            && after.generation == w.generation && after.writer == w.writer && after.inbox == [second, first]
            && 3 in after.tasks && after.tasks[3] == ToSend(ClearIfUnchanged(3, 2))
  {
    var signalled := Step(w, Signals(2));
    assert signalled == w.(flag := true, tasks := map[1 := ToSend(first)], clearable := {2});
    var sent := Step(signalled, Sends(1));
    assert sent.inbox == [second, first] && sent.clearable == {2} && 3 !in sent.used;
  }

  lemma AllTaken(w: World, first: Work, second: Work, clear: Work)
    requires w.writer.Waiting? && w.inbox == [second, first, clear]
    requires first.Write? && second.Write? && clear.ClearIfUnchanged?
    ensures var received := Step(Step(Step(w, Receives), Resets), DrainsOne);
            received.inbox == [clear] && received.writer == Draining(Burst(Some(first), None))
            && received.generation == w.generation
  {
  }

  lemma DrainedAndWritten(w: World, first: Work, clear: Work)
    requires w.inbox == [clear] && w.writer == Draining(Burst(Some(first), None))
    requires first.Write? && clear.ClearIfUnchanged?
    ensures var written := Step(Step(Step(w, DrainsOne), FindsEmpty), AppliesWrite);
            && written.writer == Clearing(Burst(Some(first), Some(clear))) && written.generation == w.generation
            && written.board == Ours(first.content, first.stamp)
  {
  }

  /**
   * A write that took its generation first and was sent last is erased by the other one's clear: it
   * is what the clipboard holds, and the clear is not stale.
   */
  lemma OvertakenWriteIsErased(plain: Content, secret: Content) returns (events: seq<Event>)
    ensures var w := Run(START, events);
            AboutToClear(w) && w.board == Ours(plain, 1) && w.writer.burst.clear.value.scheduledFor == 2
    ensures !InOrderThroughout(events)
  {
    var first, second, clear := Write(1, plain, false, 1), Write(2, secret, true, 2), ClearIfUnchanged(3, 2);
    var queued := BothQueued(plain, secret);
    SecondSignalsFirstSends(Run(START, queued), first, second);
    RunThree(queued, Signals(2), Sends(1), TimerFires(3, 2));
    var timed := queued + [Signals(2)] + [Sends(1)] + [TimerFires(3, 2)];
    RunMore(timed, Sends(3));
    var sent := timed + [Sends(3)];
    AllTaken(Run(START, sent), first, second, clear);
    RunThree(sent, Receives, Resets, DrainsOne);
    var drained := sent + [Receives] + [Resets] + [DrainsOne];
    DrainedAndWritten(Run(START, drained), first, clear);
    RunThree(drained, DrainsOne, FindsEmpty, AppliesWrite);
    events := drained + [DrainsOne] + [FindsEmpty] + [AppliesWrite];
    if InOrderThroughout(events) {
      ClearErasesOnlyItsOwn(events);
    }
  }
}
