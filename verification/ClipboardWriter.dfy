/**
 * The clipboard writer, crates/asli-app/src/clipboard_io.rs: threads that queue writes and timers
 * that queue clears, and the one thread that applies them and then serves the selection.
 *
 * A release gives up only a selection that is still ours, which every backend checks itself.
 * Generations are unbounded and writes succeed.
 */
module ClipboardWriter {
  import opened Options

  type Content = nat
  type TaskId = nat

  /**
   * One piece of queued work. A write carries the generation its queueing produced, a clear the one
   * it was scheduled for.
   */
  datatype Work =
    | Write(task: TaskId, content: Content, concealed: bool, stamp: nat)
    | ClearIfUnchanged(task: TaskId, scheduledFor: nat)

  /** What the system clipboard holds: something we wrote, or anything else. */
  datatype Board = Ours(content: Content, stamp: nat) | NotOurs

  // ------------------------------------------------------------------ batching

  datatype Burst = Burst(write: Option<Work>, clear: Option<Work>)

  const NOTHING: Burst := Burst(None, None)

  function Pushed(b: Burst, work: Work): Burst {
    if work.ClearIfUnchanged? then b.(clear := Some(work)) else Burst(Some(work), None)
  }

  function PushedAll(work: seq<Work>): Burst {
    if work == [] then NOTHING else Pushed(PushedAll(work[..|work| - 1]), work[|work| - 1])
  }

  predicate Fires(work: Work, generation: nat) {
    work.ClearIfUnchanged? && work.scheduledFor == generation
  }

  /** One write or clear, on its own. */
  function Applied(board: Board, work: Work, generation: nat): Board {
    if work.Write? then Ours(work.content, work.stamp)
    else if Fires(work, generation) then NotOurs
    else board
  }

  function AppliedIf(board: Board, work: Option<Work>, generation: nat): Board {
    if work.None? then board else Applied(board, work.value, generation)
  }

  function AppliedBurst(board: Board, b: Burst, generation: nat): Board {
    AppliedIf(AppliedIf(board, b.write, generation), b.clear, generation)
  }

  /** Whether this burst wrote something and no clear of its own took it away again. */
  predicate Holding(b: Burst, generation: nat) {
    b.write.Some? && !(b.clear.Some? && Fires(b.clear.value, generation))
  }

  /** Every piece of work in turn: what a burst stands for. */
  function OneByOne(board: Board, work: seq<Work>, generation: nat): Board {
    if work == [] then board
    else Applied(OneByOne(board, work[..|work| - 1], generation), work[|work| - 1], generation)
  }

  class Clipboard {
    var board: Board

    constructor ()
      ensures board == NotOurs
    {
      board := NotOurs;
    }

    /** Performs one piece of work. Answers whether it released the clipboard. */
    method ApplyWrite(work: Work, generation: nat) returns (released: bool)
      modifies this
      ensures board == Applied(old(board), work, generation) && released == Fires(work, generation)
    {
      match work
      case Write(_, content, _, stamp) =>
        board := Ours(content, stamp);
        return false;
      case ClearIfUnchanged(_, scheduledFor) =>
        if scheduledFor == generation {
          board := NotOurs;
          return true;
        }
        return false;
    }
  }

  class Inbox {
    var waiting: seq<Work>

    constructor ()
      ensures waiting == []
    {
      waiting := [];
    }

    method Send(work: Work)
      modifies this
      ensures waiting == old(waiting) + [work]
    {
      waiting := waiting + [work];
    }

    method TryRecv() returns (next: Option<Work>)
      modifies this
      ensures old(waiting) == [] ==> next.None? && waiting == []
      ensures old(waiting) != [] ==> next == Some(old(waiting)[0]) && waiting == old(waiting)[1..]
    {
      if waiting == [] {
        return None;
      }
      next := Some(waiting[0]);
      waiting := waiting[1..];
    }
  }

  lemma PushedOneMore(work: seq<Work>, next: Work)
    ensures PushedAll(work + [next]) == Pushed(PushedAll(work), next)
  {
    assert (work + [next])[..|work|] == work;
  }

  class Batch {
    var write: Option<Work>
    var clear: Option<Work>

    function State(): Burst
      reads this
    {
      Burst(write, clear)
    }

    constructor ()
      ensures State() == NOTHING
    {
      write, clear := None, None;
    }

    method Push(work: Work)
      modifies this
      ensures State() == Pushed(old(State()), work)
    {
      if work.ClearIfUnchanged? {
        clear := Some(work);
      } else {
        write := Some(work);
        clear := None;
      }
    }

    /** Empties the inbox into this batch, behind `first`: the batch is then the fold of both. */
    method Drain(first: Option<Work>, inbox: Inbox)
      requires State() == NOTHING
      modifies this, inbox
      ensures inbox.waiting == []
      ensures State() == PushedAll((if first.Some? then [first.value] else []) + old(inbox.waiting))
    {
      ghost var taken: seq<Work> := [];
      if first.Some? {
        Push(first.value);
        taken := [first.value];
        assert taken[..0] == [];
      }
      ghost var all := taken + inbox.waiting;
      var next := inbox.TryRecv();
      while next.Some?
        invariant next.Some? ==> taken + [next.value] + inbox.waiting == all
        invariant next.None? ==> taken == all && inbox.waiting == []
        invariant State() == PushedAll(taken)
        decreases if next.Some? then 1 + |inbox.waiting| else 0
      {
        Push(next.value);
        PushedOneMore(taken, next.value);
        taken := taken + [next.value];
        next := inbox.TryRecv();
      }
    }

    /** Leaves on the clipboard what the batch stands for, and answers `Holding`. */
    method Apply(clipboard: Clipboard, generation: nat) returns (holding: bool)
      requires (write.Some? ==> write.value.Write?) && (clear.Some? ==> clear.value.ClearIfUnchanged?)
      modifies clipboard
      ensures clipboard.board == AppliedBurst(old(clipboard.board), State(), generation)
      ensures holding == Holding(State(), generation)
    {
      holding := false;
      if write.Some? {
        var released := clipboard.ApplyWrite(write.value, generation);
        holding := !released;
      }
      if clear.Some? {
        var released := clipboard.ApplyWrite(clear.value, generation);
        if released {
          holding := false;
        }
      }
    }
  }

  /** What the queueing threads and the writer share, when nothing runs beside the call. */
  class SystemClipboard {
    var generation: nat
    var interrupt: bool
    const inbox: Inbox
    const clipboard: Clipboard

    constructor ()
      ensures fresh(inbox) && fresh(clipboard)
      ensures generation == 0 && !interrupt && inbox.waiting == [] && clipboard.board == NotOurs
    {
      generation, interrupt := 0, false;
      inbox := new Inbox();
      clipboard := new Clipboard();
    }

    /** A new generation, the write behind everything queued, the flag set: all three, and the generation as answer. */
    method QueueWrite(task: TaskId, content: Content, concealed: bool) returns (produced: nat)
      modifies this, inbox
      ensures produced == generation == old(generation) + 1 && interrupt
      ensures inbox.waiting == old(inbox.waiting) + [Write(task, content, concealed, produced)]
    {
      generation := generation + 1;
      produced := generation;
      inbox.Send(Write(task, content, concealed, produced));
      interrupt := true;
    }

    /** What the timer of a concealed write does when its time has come. */
    method QueueClear(task: TaskId, scheduledFor: nat)
      modifies this, inbox
      ensures generation == old(generation) && interrupt
      ensures inbox.waiting == old(inbox.waiting) + [ClearIfUnchanged(task, scheduledFor)]
    {
      inbox.Send(ClearIfUnchanged(task, scheduledFor));
      interrupt := true;
    }

    /**
     * One turn of the writer after it received `first`: reset the flag, drain, apply. Answers whether
     * there is something to serve. The clipboard ends as if each piece of work had been applied in turn
     * exactly when the burst allows it.
     */
    method WriterTurn(first: Work) returns (holding: bool)
      modifies this`interrupt, inbox, clipboard
      ensures !interrupt && inbox.waiting == []
      ensures var work := [first] + old(inbox.waiting);
              && clipboard.board == AppliedBurst(old(clipboard.board), PushedAll(work), generation)
              && holding == Holding(PushedAll(work), generation)
              && (clipboard.board == OneByOne(old(clipboard.board), work, generation)
                  <==> BurstAllows(old(clipboard.board), work, generation))
      ensures holding ==> clipboard.board.Ours?
    {
      interrupt := false;
      ghost var work, before := [first] + inbox.waiting, clipboard.board;
      var batch := new Batch();
      batch.Drain(Some(first), inbox);
      PushedKinds(work);
      BatchingIsOneByOneExactlyWhen(before, work, generation);
      holding := batch.Apply(clipboard, generation);
    }
  }

  /** The clears queued behind the last write. */
  function AfterLastWrite(work: seq<Work>): seq<Work> {
    if work == [] || work[|work| - 1].Write? then []
    else AfterLastWrite(work[..|work| - 1]) + [work[|work| - 1]]
  }

  predicate AnyFires(work: seq<Work>, generation: nat) {
    exists i | 0 <= i < |work| :: Fires(work[i], generation)
  }

  predicate NoWrite(work: seq<Work>) {
    forall i | 0 <= i < |work| :: work[i].ClearIfUnchanged?
  }

  lemma {:induction false} PushedKinds(work: seq<Work>)
    ensures var b := PushedAll(work);
            && (b.write.Some? ==> b.write.value.Write?) && (b.clear.Some? ==> b.clear.value.ClearIfUnchanged?)
            && (b.write.None? <==> NoWrite(work))
            && b.clear == (var tail := AfterLastWrite(work); if tail == [] then None else Some(tail[|tail| - 1]))
  {
    if work != [] {
      var init := work[..|work| - 1];
      PushedKinds(init);
      assert forall i | 0 <= i < |init| :: init[i] == work[i];
    }
  }

  /** One by one, only the last write matters, and whether any clear behind it fires. */
  lemma {:induction false} OneByOneMeaning(board: Board, work: seq<Work>, generation: nat)
    ensures OneByOne(board, work, generation)
            == if AnyFires(AfterLastWrite(work), generation) then NotOurs
               else AppliedIf(board, PushedAll(work).write, generation)
  {
    if work != [] {
      var init, last := work[..|work| - 1], work[|work| - 1];
      OneByOneMeaning(board, init, generation);
      if last.ClearIfUnchanged? {
        var tail := AfterLastWrite(init);
        assert forall i | 0 <= i < |tail| :: (tail + [last])[i] == tail[i];
        assert (tail + [last])[|tail|] == last;
      }
    }
  }

  /** No clear behind the last write fires, or the last one there does, or nothing of ours was there. */
  predicate BurstAllows(board: Board, work: seq<Work>, generation: nat) {
    var tail := AfterLastWrite(work);
    AnyFires(tail, generation) ==> Fires(tail[|tail| - 1], generation) || (NoWrite(work) && board == NotOurs)
  }

  /**
   * A burst leaves the clipboard that applying each piece in turn would leave, unless a clear behind
   * the last write fires and the last one there does not; then only when nothing of ours was there.
   */
  lemma BatchingIsOneByOneExactlyWhen(board: Board, work: seq<Work>, generation: nat)
    ensures AppliedBurst(board, PushedAll(work), generation) == OneByOne(board, work, generation)
            <==> BurstAllows(board, work, generation)
  {
    PushedKinds(work);
    OneByOneMeaning(board, work, generation);
    var tail := AfterLastWrite(work);
    if tail != [] && Fires(tail[|tail| - 1], generation) {
      assert AnyFires(tail, generation);
    }
  }

  /** The last write among this work. */
  function LastWritten(work: seq<Work>): (r: Option<Work>)
    ensures r.Some? ==> r.value.Write?
  {
    if work == [] then None
    else if work[|work| - 1].Write? then Some(work[|work| - 1])
    else LastWritten(work[..|work| - 1])
  }

  /** Whether the last piece of this work is a clear that is still due. */
  predicate EndsCleared(work: seq<Work>, generation: nat) {
    work != [] && work[|work| - 1].ClearIfUnchanged? && work[|work| - 1].scheduledFor == generation
  }

  lemma {:induction false} BatchMeaning(work: seq<Work>)
    ensures PushedAll(work).write == LastWritten(work)
    ensures PushedAll(work).clear
            == if work != [] && work[|work| - 1].ClearIfUnchanged? then Some(work[|work| - 1]) else None
  {
    if work != [] {
      BatchMeaning(work[..|work| - 1]);
    }
  }

  /**
   * A burst leaves nothing of ours when its last piece is a clear that is still due, and otherwise its last
   * write, or what was there; there is something to serve exactly when it wrote and was not so cleared.
   */
  lemma BurstLeaves(board: Board, work: seq<Work>, generation: nat)
    ensures AppliedBurst(board, PushedAll(work), generation)
            == if EndsCleared(work, generation) then NotOurs
               else
                 match LastWritten(work)
                 case Some(write) => Ours(write.content, write.stamp)
                 case None => board
    ensures Holding(PushedAll(work), generation) <==> LastWritten(work).Some? && !EndsCleared(work, generation)
  {
    BatchMeaning(work);
  }

  /** Clears come in the order they were scheduled, none for a generation that has not been reached. */
  ghost predicate ClearsInOrder(work: seq<Work>, generation: nat) {
    && (forall i | 0 <= i < |work| && work[i].ClearIfUnchanged? :: work[i].scheduledFor <= generation)
    && (forall i, j | 0 <= i < j < |work| && work[i].ClearIfUnchanged? && work[j].ClearIfUnchanged? ::
          work[i].scheduledFor <= work[j].scheduledFor)
  }

  lemma {:induction false} TailInOrder(work: seq<Work>, generation: nat)
    requires ClearsInOrder(work, generation)
    ensures var tail := AfterLastWrite(work);
            && |tail| <= |work| && NoWrite(tail)
            && forall i | 0 <= i < |tail| :: tail[i] == work[|work| - |tail| + i]
  {
    if work != [] && work[|work| - 1].ClearIfUnchanged? {
      TailInOrder(work[..|work| - 1], generation);
    }
  }

  lemma BatchingIsOneByOne(board: Board, work: seq<Work>, generation: nat)
    requires ClearsInOrder(work, generation)
    ensures AppliedBurst(board, PushedAll(work), generation) == OneByOne(board, work, generation)
  {
    BatchingIsOneByOneExactlyWhen(board, work, generation);
    TailInOrder(work, generation);
    var tail := AfterLastWrite(work);
    if AnyFires(tail, generation) {
      var i :| 0 <= i < |tail| && Fires(tail[i], generation);
      var start := |work| - |tail|;
      assert work[start + i].scheduledFor <= work[start + |tail| - 1].scheduledFor <= generation;
    }
  }
}
