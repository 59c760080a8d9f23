/**
 * Sequence numbers across crashes, crates/asli-app/src/daemon.rs: a block is reserved on disk before
 * any of it is used, and raised before a process could run past it.
 *
 * Numbers are unbounded, disk writes succeed, and a raise is one step. The session that uses the
 * numbers is crates/asli-net: it uses at most one per copy handed on, and one more each time a new
 * connection sends again a copy the last one never had confirmed.
 */
module Sequence {
  import opened Options

  const SEQ_RESERVATION: nat := 1000
  const MARGIN: nat := SEQ_RESERVATION / 10

  datatype Watch = Watch(issued: nat, ceiling: nat)

  function NewWatch(base: nat): Watch {
    Watch(base, base + SEQ_RESERVATION)
  }

  function Issue(w: Watch): (Watch, Option<nat>) {
    var issued := w.issued + 1;
    if issued + MARGIN >= w.ceiling then
      (Watch(issued, w.ceiling + SEQ_RESERVATION), Some(w.ceiling + SEQ_RESERVATION))
    else (Watch(issued, w.ceiling), None)
  }

  function Raise(disk: nat, ceiling: nat): nat {
    if disk < ceiling then ceiling else disk
  }

  /** How far the numbers handed out have come, and the ceiling that `IssueOne` moves ahead of them. */
  class SequenceWatch {
    var issued: nat
    var ceiling: nat

    function State(): Watch
      reads this
    {
      Watch(issued, ceiling)
    }

    constructor (base: nat)
      ensures State() == NewWatch(base)
    {
      issued := base;
      ceiling := base + SEQ_RESERVATION;
    }

    method IssueOne() returns (due: Option<nat>)
      modifies this
      ensures (State(), due) == Issue(old(State()))
    {
      issued := issued + 1;
      if issued + MARGIN >= ceiling {
        ceiling := ceiling + SEQ_RESERVATION;
        return Some(ceiling);
      }
      return None;
    }
  }

  /** The state file, which holds one number. */
  class StateFile {
    var number: nat

    constructor (number: nat)
      ensures this.number == number
    {
      this.number := number;
    }

    /** Reserves a block and answers the number the session starts from. */
    method Reserve() returns (base: nat)
      modifies this
      ensures base == old(number) && number == NewWatch(base).ceiling
    {
      base := number;
      number := base + SEQ_RESERVATION;
    }

    method RaiseTo(ceiling: nat)
      modifies this
      ensures number == Raise(old(number), ceiling)
    {
      if number < ceiling {
        number := ceiling;
      }
    }
  }

  // ------------------------------------------------------------------ the device

  /** Where the bridge thread stands: between copies, or holding one it has counted. */
  datatype Bridge = Waiting | Holding(due: Option<nat>)

  /**
   * One process. `used` is the session's number, `queued` the copies handed on and not taken,
   * `unconfirmed` whether a copy sent on this connection awaits its confirmation, `stashed` whether
   * one from an earlier connection is to be sent again, and `resent` how often that was done.
   */
  datatype Process = Process(
    watch: Watch,
    bridge: Bridge,
    queued: nat,
    used: nat,
    unconfirmed: bool,
    stashed: bool,
    resent: nat)

  /** `log` is every number this device used, in order, over all its processes. */
  datatype Device = Device(disk: nat, process: Option<Process>, log: seq<nat>)

  datatype Event =
    | Start
    | Copied
    | Raised
    | HandedOn(dropped: bool)
    | Used(taken: nat, sent: bool)
    | Confirmed
    | Disconnected
    | Resent
    | Crash

  function With(d: Device, p: Process): Device {
    d.(process := Some(p))
  }

  /** An event that cannot happen where the device stands changes nothing. */
  function Step(d: Device, e: Event): Device {
    if d.process.None? then
      if e.Start? then
        Device(NewWatch(d.disk).ceiling, Some(Process(NewWatch(d.disk), Waiting, 0, d.disk, false, false, 0)), d.log)
      else d
    else
      var p := d.process.value;
      match e
      case Start => d
      case Copied =>
        if !p.bridge.Waiting? then d
        else
          var (watch, due) := Issue(p.watch);
          With(d, p.(watch := watch, bridge := Holding(due)))
      case Raised =>
        if !p.bridge.Holding? || p.bridge.due.None? then d
        else With(d.(disk := Raise(d.disk, p.bridge.due.value)), p.(bridge := Holding(None)))
      case HandedOn(dropped) =>
        if !p.bridge.Holding? || p.bridge.due.Some? then d
        else With(d, p.(bridge := Waiting, queued := if dropped then p.queued else p.queued + 1))
      case Used(taken, sent) =>
        if taken == 0 || taken > p.queued then d
        else if !sent then With(d, p.(queued := p.queued - taken))
        else
          With(d.(log := d.log + [p.used + 1]), p.(queued := p.queued - taken, used := p.used + 1, unconfirmed := true))
      case Confirmed => With(d, p.(unconfirmed := false))
      case Disconnected =>
        With(d.(disk := Raise(d.disk, p.used + SEQ_RESERVATION)),
             p.(stashed := p.stashed || p.unconfirmed, unconfirmed := false))
      case Resent =>
        if !p.stashed || p.unconfirmed then d
        else
          With(d.(log := d.log + [p.used + 1]),
               p.(used := p.used + 1, stashed := false, unconfirmed := true, resent := p.resent + 1))
      case Crash => d.(process := None)
  }

  function Run(d: Device, events: seq<Event>): Device {
    if events == [] then d else Step(Run(d, events[..|events| - 1]), events[|events| - 1])
  }

  function Installed(disk: nat): Device {
    Device(disk, None, [])
  }

  // ------------------------------------------------------------------ what always holds

  ghost predicate StrictlyIncreasing(log: seq<nat>) {
    forall i, j | 0 <= i < j < |log| :: log[i] < log[j]
  }

  ghost predicate AtMost(log: seq<nat>, bound: nat) {
    forall i | 0 <= i < |log| :: log[i] <= bound
  }

  /** The copies counted but not handed on. */
  function InHand(p: Process): nat {
    if p.bridge.Holding? then 1 else 0
  }

  /** What is reserved on disk covers every copy handed on, with the margin to spare. */
  ghost predicate Reserved(p: Process, disk: nat) {
    if p.bridge.Holding? && p.bridge.due.Some? then
      p.bridge.due.value == p.watch.ceiling && p.watch.ceiling - SEQ_RESERVATION <= disk
      && p.watch.issued - 1 + MARGIN < p.watch.ceiling - SEQ_RESERVATION
      && p.watch.issued + MARGIN < p.watch.ceiling
    else
      p.watch.issued + MARGIN < p.watch.ceiling <= disk
  }

  ghost predicate SoundProcess(p: Process, disk: nat) {
    p.used + p.queued + InHand(p) <= p.watch.issued + p.resent && Reserved(p, disk)
  }

  /** The process that runs, if one does, sent at most `n` copies again. */
  predicate ResendsAtMost(d: Device, n: nat) {
    d.process.Some? ==> d.process.value.resent <= n
  }

  predicate FewResends(d: Device) {
    ResendsAtMost(d, MARGIN + 1)
  }

  ghost predicate Sound(d: Device) {
    StrictlyIncreasing(d.log)
    && match d.process
       case None => AtMost(d.log, d.disk)
       case Some(p) => SoundProcess(p, d.disk) && AtMost(d.log, p.used)
  }

  /** What a process has used is on disk as long as it did not send too many copies again. */
  lemma UsedIsReserved(p: Process, disk: nat)
    requires SoundProcess(p, disk) && p.resent <= MARGIN + 1
    ensures p.used <= disk
  {
  }

  lemma LogGrows(log: seq<nat>, used: nat)
    requires StrictlyIncreasing(log) && AtMost(log, used)
    ensures StrictlyIncreasing(log + [used + 1]) && AtMost(log + [used + 1], used + 1)
  {
  }

  lemma StepKeeps(d: Device, e: Event)
    requires Sound(d) && FewResends(d)
    ensures Sound(Step(d, e))
  {
    if d.process.Some? {
      UsedIsReserved(d.process.value, d.disk);
      LogGrows(d.log, d.process.value.used);
    }
  }

  /** No process of the run sends more than `n` copies again, at any moment. */
  ghost predicate ResendsAtMostThroughout(d: Device, events: seq<Event>, n: nat) {
    forall k: nat | k <= |events| :: ResendsAtMost(Run(d, events[..k]), n)
  }

  ghost predicate FewResendsThroughout(d: Device, events: seq<Event>) {
    ResendsAtMostThroughout(d, events, MARGIN + 1)
  }

  lemma {:induction false} RunKeeps(disk: nat, events: seq<Event>)
    requires FewResendsThroughout(Installed(disk), events)
    ensures Sound(Run(Installed(disk), events))
  {
    if events != [] {
      var init := events[..|events| - 1];
      forall n: nat | n <= |init|
        ensures FewResends(Run(Installed(disk), init[..n]))
      {
        assert events[..n] == init[..n];
      }
      RunKeeps(disk, init);
      assert init[..|init|] == init;
      StepKeeps(Run(Installed(disk), init), events[|events| - 1]);
    }
  }

  /**
   * Over every run of starts, copies, disconnects, crashes at any point and restarts in which no
   * process sends more than `MARGIN + 1` copies again, the numbers used are strictly increasing and
   * none is above the number on disk.
   */
  lemma NumbersIncrease(disk: nat, events: seq<Event>)
    requires FewResendsThroughout(Installed(disk), events)
    ensures StrictlyIncreasing(Run(Installed(disk), events).log)
    ensures AtMost(Run(Installed(disk), events).log, Run(Installed(disk), events).disk)
  {
    RunKeeps(disk, events);
    var d := Run(Installed(disk), events);
    assert events[..|events|] == events;
    if d.process.Some? {
      UsedIsReserved(d.process.value, d.disk);
    }
  }

  /** With nothing sent again, used <= issued < ceiling <= disk whenever no raise is due. */
  lemma UsedBelowCeiling(disk: nat, events: seq<Event>)
    requires FewResendsThroughout(Installed(disk), events)
    requires var d := Run(Installed(disk), events);
             d.process.Some? && d.process.value.resent == 0
             && (d.process.value.bridge.Holding? ==> d.process.value.bridge.due.None?)
    ensures var d := Run(Installed(disk), events);
            var p := d.process.value;
            p.used <= p.watch.issued < p.watch.ceiling <= d.disk
  {
    RunKeeps(disk, events);
  }

  /** Nothing lowers the number on disk. */
  lemma {:induction false} DiskNeverFalls(d: Device, events: seq<Event>)
    ensures d.disk <= Run(d, events).disk
  {
    if events != [] {
      DiskNeverFalls(d, events[..|events| - 1]);
    }
  }

  // ------------------------------------------------------------------ what is sent again

  /** Whether a copy sent on this connection awaits its confirmation, and whether one was left by an earlier one. */
  datatype Unsettled = Unsettled(awaits: bool, left: bool)

  /** A copy sent awaits until it is confirmed; a connection that is cut off leaves it, until it is sent again. */
  function NextUnsettled(d: Device, u: Unsettled, e: Event): Unsettled {
    if d.process.None? then Unsettled(false, false)
    else
      match e
      case Used(taken, sent) => if sent && 0 < taken <= d.process.value.queued then u.(awaits := true) else u
      case Confirmed => u.(awaits := false)
      case Disconnected => Unsettled(false, u.left || u.awaits)
      case Resent => if u.left && !u.awaits then Unsettled(true, false) else u
      case Crash => Unsettled(false, false)
      case _ => u
  }

  function UnsettledBy(d: Device, events: seq<Event>): Unsettled {
    if events == [] then Unsettled(false, false)
    else
      var init := events[..|events| - 1];
      NextUnsettled(Run(d, init), UnsettledBy(d, init), events[|events| - 1])
  }

  ghost predicate Tracks(d: Device, u: Unsettled) {
    match d.process
    case None => u == Unsettled(false, false)
    case Some(p) => p.unconfirmed == u.awaits && p.stashed == u.left
  }

  lemma StepTracks(d: Device, u: Unsettled, e: Event)
    requires Tracks(d, u)
    ensures Tracks(Step(d, e), NextUnsettled(d, u, e))
  {
  }

  lemma {:induction false} RunTracks(disk: nat, events: seq<Event>)
    ensures Tracks(Run(Installed(disk), events), UnsettledBy(Installed(disk), events))
  {
    if events != [] {
      var init := events[..|events| - 1];
      RunTracks(disk, init);
      StepTracks(Run(Installed(disk), init), UnsettledBy(Installed(disk), init), events[|events| - 1]);
    }
  }

  /** Over every run, a copy is sent again exactly when one was left and none awaits, and that takes one number more. */
  lemma ResentExactlyWhenLeft(disk: nat, events: seq<Event>)
    requires Run(Installed(disk), events).process.Some?
    ensures var d, u := Run(Installed(disk), events), UnsettledBy(Installed(disk), events);
            Step(d, Resent).log == d.log + if u.left && !u.awaits then [d.process.value.used + 1] else []
  {
    RunTracks(disk, events);
  }

  // ------------------------------------------------------------------ the bound is exact

  lemma {:induction false} RunJoins(d: Device, first: seq<Event>, second: seq<Event>)
    ensures Run(d, first + second) == Run(Run(d, first), second)
  {
    if second == [] {
      assert first + second == first;
    } else {
      var last := |second| - 1;
      assert (first + second)[..|first| + last] == first + second[..last];
      RunJoins(d, first, second[..last]);
    }
  }

  /** One copy, all the way through the bridge and the session. */
  const COPY: seq<Event> := [Copied, Raised, HandedOn(false), Used(1, true)]

  function Times(n: nat, round: seq<Event>): seq<Event> {
    if n == 0 then [] else Times(n - 1, round) + round
  }

  /** A process between copies with nothing queued. */
  ghost predicate AtRest(d: Device) {
    d.process.Some? && d.process.value.bridge.Waiting? && d.process.value.queued == 0
  }

  lemma RunFour(d: Device, a: Event, b: Event, c: Event, e: Event)
    ensures Run(d, [a, b, c, e]) == Step(Step(Step(Step(d, a), b), c), e)
  {
    assert [a, b, c, e][..3] == [a, b, c] && [a, b, c][..2] == [a, b] && [a, b][..1] == [a] && [a][..0] == [];
    assert Run(d, [a]) == Step(d, a);
    assert Run(d, [a, b]) == Step(Step(d, a), b);
    assert Run(d, [a, b, c]) == Step(Step(Step(d, a), b), c);
  }

  lemma CountedRaisedHandedUsed(d: Device, p: Process, watch: Watch, due: Option<nat>)
    requires d.process == Some(p) && p.bridge == Holding(due) && p.watch == watch && p.queued == 0
    ensures var disk := if due.Some? then Raise(d.disk, due.value) else d.disk;
            var raised := Step(d, Raised);
            && raised == Device(disk, Some(p.(bridge := Holding(None))), d.log)
            && Step(raised, HandedOn(false)) == Device(disk, Some(p.(bridge := Waiting, queued := 1)), d.log)
  {
  }

  lemma QueuedUsed(d: Device, p: Process)
    requires d.process == Some(p) && p.queued == 1
    ensures Step(d, Used(1, true))
            == Device(d.disk, Some(p.(queued := 0, used := p.used + 1, unconfirmed := true)), d.log + [p.used + 1])
  {
  }

  lemma RunCopy(d: Device)
    ensures Run(d, COPY) == Step(Step(Step(Step(d, Copied), Raised), HandedOn(false)), Used(1, true))
  {
    RunFour(d, Copied, Raised, HandedOn(false), Used(1, true));
  }

  /** What one copy makes of a device at rest. */
  function AfterCopy(d: Device): Device
    requires d.process.Some?
  {
    var p := d.process.value;
    var (watch, due) := Issue(p.watch);
    Device(
      if due.Some? then Raise(d.disk, due.value) else d.disk,
      Some(p.(watch := watch, used := p.used + 1, unconfirmed := true)),
      d.log + [p.used + 1])
  }

  lemma OneCopy(d: Device)
    requires AtRest(d)
    ensures Run(d, COPY) == AfterCopy(d)
  {
    RunCopy(d);
    var p := d.process.value;
    var (watch, due) := Issue(p.watch);
    var q := p.(watch := watch, bridge := Holding(due));
    var counted := With(d, q);
    assert Step(d, Copied) == counted;
    CountedRaisedHandedUsed(counted, q, watch, due);
    var handed := Step(Step(counted, Raised), HandedOn(false));
    QueuedUsed(handed, q.(bridge := Waiting, queued := 1));
  }

  /** As long as no raise is due, `n` copies use `n` numbers and nothing else moves. */
  lemma {:induction false} QuietCopies(d: Device, n: nat)
    requires AtRest(d) && d.process.value.watch.issued + n + MARGIN < d.process.value.watch.ceiling
    ensures var after := Run(d, Times(n, COPY));
            var p := d.process.value;
            AtRest(after) && after.disk == d.disk
            && after.process.value.watch == Watch(p.watch.issued + n, p.watch.ceiling)
            && after.process.value.used == p.used + n && after.process.value.resent == p.resent
            && (n > 0 ==> after.log != [] && after.log[|after.log| - 1] == p.used + n)
  {
    if n > 0 {
      QuietCopies(d, n - 1);
      RunJoins(d, Times(n - 1, COPY), COPY);
      OneCopy(Run(d, Times(n - 1, COPY)));
    }
  }

  /** A connection that drops before its copy is confirmed, and the copy sent again on the next. */
  const DROP: seq<Event> := [Disconnected, Resent]

  lemma {:induction false} Drops(d: Device, n: nat)
    requires AtRest(d) && d.process.value.unconfirmed
    requires d.disk == Raise(d.disk, d.process.value.used + SEQ_RESERVATION - 1)
    ensures var after := Run(d, Times(n, DROP));
            var p := d.process.value;
            AtRest(after) && after.process.value.unconfirmed
            && after.process.value.watch == p.watch
            && after.process.value.used == p.used + n && after.process.value.resent == p.resent + n
            && after.disk == if n == 0 then d.disk else Raise(d.disk, p.used + n + SEQ_RESERVATION - 1)
  {
    if n > 0 {
      Drops(d, n - 1);
      RunJoins(d, Times(n - 1, DROP), DROP);
      var before := Run(d, Times(n - 1, DROP));
      assert DROP[..1] == [Disconnected] && [Disconnected][..0] == [];
      assert Run(before, [Disconnected]) == Step(before, Disconnected);
      assert Run(before, DROP) == Step(Step(before, Disconnected), Resent);
    }
  }

  function CountResent(events: seq<Event>): nat {
    if events == [] then 0
    else CountResent(events[..|events| - 1]) + if events[|events| - 1].Resent? then 1 else 0
  }

  lemma {:induction false} CountJoins(first: seq<Event>, second: seq<Event>)
    ensures CountResent(first + second) == CountResent(first) + CountResent(second)
  {
    if second == [] {
      assert first + second == first;
    } else {
      var last := |second| - 1;
      assert (first + second)[..|first| + last] == first + second[..last];
      CountJoins(first, second[..last]);
    }
  }

  lemma {:induction false} CountTimes(n: nat, round: seq<Event>)
    ensures CountResent(Times(n, round)) == n * CountResent(round)
  {
    if n > 0 {
      CountTimes(n - 1, round);
      CountJoins(Times(n - 1, round), round);
    }
  }

  lemma CountRounds()
    ensures CountResent(COPY) == 0 && CountResent(DROP) == 1
    ensures CountResent([Start]) == 0 && CountResent([Crash, Start]) == 0
  {
    assert COPY[..3] == [Copied, Raised, HandedOn(false)] && COPY[..3][..2] == [Copied, Raised];
    assert [Copied, Raised][..1] == [Copied] && [Copied][..0] == [];
    assert DROP[..1] == [Disconnected] && [Disconnected][..0] == [];
    assert [Crash, Start][..1] == [Crash] && [Crash][..0] == [] && [Start][..0] == [];
  }

  /** A first copy that is never confirmed on `MARGIN + 2` connections in a row. */
  lemma ManyDrops() returns (events: seq<Event>)
    ensures CountResent(events) == MARGIN + 2
    ensures var d := Run(Installed(0), events);
            AtRest(d) && d.process.value.watch == Watch(1, 1000) && d.process.value.used == 103 && d.disk == 1102
  {
    var start, drops := [Start], Times(MARGIN + 2, DROP);
    assert start[..0] == [] && Run(Installed(0), start) == Step(Installed(0), Start);
    var d := Run(Installed(0), start);
    OneCopy(d);
    Drops(Run(d, COPY), MARGIN + 2);
    events := start + COPY + drops;
    RunJoins(Installed(0), start, COPY);
    RunJoins(Installed(0), start + COPY, drops);
    CountRounds();
    CountTimes(MARGIN + 2, DROP);
    CountJoins(start, COPY);
    CountJoins(start + COPY, drops);
  }

  /** Quiet copies, then one that makes a raise due. */
  lemma UpToARaise(d: Device, n: nat) returns (events: seq<Event>)
    requires AtRest(d) && d.process.value.watch.issued + n + 1 + MARGIN == d.process.value.watch.ceiling
    requires d.disk <= d.process.value.watch.ceiling + SEQ_RESERVATION
    ensures CountResent(events) == 0
    ensures var after := Run(d, events);
            var p := d.process.value;
            AtRest(after)
            && after.disk == p.watch.ceiling + SEQ_RESERVATION == after.process.value.watch.ceiling
            && after.process.value.watch.issued == p.watch.issued + n + 1
            && after.process.value.used == p.used + n + 1
  {
    var first := Times(n, COPY);
    QuietCopies(d, n);
    var quiet := Run(d, first);
    OneCopy(quiet);
    events := first + COPY;
    RunJoins(d, first, COPY);
    CountRounds();
    CountTimes(n, COPY);
    CountJoins(first, COPY);
  }

  lemma QuietStretch(d: Device, n: nat) returns (events: seq<Event>)
    requires AtRest(d) && d.process.value.watch.issued + n + MARGIN < d.process.value.watch.ceiling && n > 0
    ensures CountResent(events) == 0
    ensures var after := Run(d, events);
            AtRest(after) && after.disk == d.disk
            && after.log != [] && after.log[|after.log| - 1] == d.process.value.used + n
  {
    events := Times(n, COPY);
    QuietCopies(d, n);
    CountRounds();
    CountTimes(n, COPY);
  }

  /** Then one connection that stays up until just before the second raise would be due. */
  lemma LongConnection(d: Device) returns (events: seq<Event>)
    requires AtRest(d) && d.process.value.watch == Watch(1, 1000) && d.process.value.used == 103 && d.disk == 1102
    ensures CountResent(events) == 0
    ensures var after := Run(d, events);
            AtRest(after) && after.disk == 2000 && after.log != [] && after.log[|after.log| - 1] == 2001
  {
    var first := UpToARaise(d, 898);
    var rest := QuietStretch(Run(d, first), 999);
    events := first + rest;
    RunJoins(d, first, rest);
    CountJoins(first, rest);
  }

  /** Then a crash: the next process starts from the number on disk. */
  lemma CrashAndCopy(d: Device) returns (events: seq<Event>)
    requires d.process.Some?
    ensures CountResent(events) == 0
    ensures Run(d, events).log == d.log + [d.disk + 1]
  {
    var again := [Crash, Start];
    assert again[..1] == [Crash] && [Crash][..0] == [];
    assert Run(d, [Crash]) == Step(d, Crash);
    assert Run(d, again) == Step(Step(d, Crash), Start);
    OneCopy(Run(d, again));
    events := again + COPY;
    RunJoins(d, again, COPY);
    CountRounds();
    CountJoins(again, COPY);
  }

  /**
   * One more is too many: a process that sends `MARGIN + 2` copies again and then crashes can leave
   * a number it used above the one on disk, and the next process uses that number a second time.
   */
  lemma OneMoreResendReusesANumber() returns (events: seq<Event>)
    ensures CountResent(events) == MARGIN + 2
    ensures !StrictlyIncreasing(Run(Installed(0), events).log)
  {
    var drops := ManyDrops();
    var dropped := Run(Installed(0), drops);
    var long := LongConnection(dropped);
    var stayed := Run(dropped, long);
    var crash := CrashAndCopy(stayed);
    events := drops + long + crash;
    RunJoins(Installed(0), drops, long);
    RunJoins(Installed(0), drops + long, crash);
    CountJoins(drops, long);
    CountJoins(drops + long, crash);
    var log := Run(Installed(0), events).log;
    var last := |stayed.log| - 1;
    assert log[last] == 2001 && log[last + 1] == 2001;
  }

  // ------------------------------------------------------------------ exactly when numbers are safe

  /** With at most `n` copies sent again per process, no run from any number on disk uses a number twice. */
  ghost predicate SafeWith(n: nat) {
    forall disk: nat, events: seq<Event> | ResendsAtMostThroughout(Installed(disk), events, n) ::
      StrictlyIncreasing(Run(Installed(disk), events).log)
  }

  /** A process sent no more copies again than the whole run did. */
  lemma {:induction false} ResentIsCounted(disk: nat, events: seq<Event>)
    ensures ResendsAtMost(Run(Installed(disk), events), CountResent(events))
  {
    if events != [] {
      ResentIsCounted(disk, events[..|events| - 1]);
    }
  }

  lemma PrefixCountsLess(events: seq<Event>, k: nat)
    requires k <= |events|
    ensures CountResent(events[..k]) <= CountResent(events)
  {
    CountJoins(events[..k], events[k..]);
    assert events[..k] + events[k..] == events;
  }

  /** A run with few enough resends keeps to any larger bound in every process. */
  lemma CountBoundsEveryProcess(disk: nat, events: seq<Event>, n: nat)
    requires CountResent(events) <= n
    ensures ResendsAtMostThroughout(Installed(disk), events, n)
  {
    forall k: nat | k <= |events|
      ensures ResendsAtMost(Run(Installed(disk), events[..k]), n)
    {
      ResentIsCounted(disk, events[..k]);
      PrefixCountsLess(events, k);
    }
  }

  lemma FewerIsFew(disk: nat, events: seq<Event>, n: nat)
    requires n <= MARGIN + 1 && ResendsAtMostThroughout(Installed(disk), events, n)
    ensures FewResendsThroughout(Installed(disk), events)
  {
  }

  /**
   * The sequence numbers of every run are strictly increasing if and only if no process may send more
   * than `MARGIN + 1` unconfirmed copies again.
   */
  lemma SafeExactlyUpToTheMargin(n: nat)
    ensures SafeWith(n) <==> n <= MARGIN + 1
  {
    if n <= MARGIN + 1 {
      forall disk: nat, events: seq<Event> | ResendsAtMostThroughout(Installed(disk), events, n)
        ensures StrictlyIncreasing(Run(Installed(disk), events).log)
      {
        FewerIsFew(disk, events, n);
        NumbersIncrease(disk, events);
      }
    } else {
      var events := OneMoreResendReusesANumber();
      CountBoundsEveryProcess(0, events, n);
    }
  }
}
