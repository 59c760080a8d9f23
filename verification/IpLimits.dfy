/** `IpLimiter` of server/src/limits.ts: connections and admission rate per client address. */
module IpLimits {
  import opened Options
  import opened TokenBuckets

  type Address = string

  datatype IpPolicy = IpPolicy(maxConcurrent: int, newConns: BucketPolicy)

  datatype IpEntry = IpEntry(connections: nat, newConns: Bucket, lastSeenMs: int)

  datatype Admission = Ok | TooMany | TooFast

  type IpEntries = map<Address, IpEntry>

  function EntryFor(m: IpEntries, p: IpPolicy, key: Address, nowMs: int): IpEntry {
    if key in m then m[key] else IpEntry(0, Bucket(p.newConns.capacity, nowMs), nowMs)
  }

  function Admit(m: IpEntries, p: IpPolicy, key: Address, nowMs: int): (IpEntries, Admission) {
    var entry := EntryFor(m, p, key, nowMs).(lastSeenMs := nowMs);
    if entry.connections >= p.maxConcurrent then
      (m[key := entry], TooMany)
    else
      var (bucket, taken) := TakeFrom(entry.newConns, p.newConns, 1.0, nowMs);
      if !taken then (m[key := entry.(newConns := bucket)], TooFast)
      else (m[key := entry.(newConns := bucket, connections := entry.connections + 1)], Ok)
  }

  function Release(m: IpEntries, key: Address, nowMs: int): IpEntries {
    if key !in m then m
    else
      var left := if m[key].connections == 0 then 0 else m[key].connections - 1;
      m[key := m[key].(connections := left, lastSeenMs := nowMs)]
  }

  predicate Unused(e: IpEntry, nowMs: int, idleMs: int) {
    e.connections == 0 && nowMs - e.lastSeenMs > idleMs
  }

  /** The sweep asks only unused entries whether their bucket is full, and asking refills it. */
  function Swept(e: IpEntry, p: IpPolicy, nowMs: int, idleMs: int): IpEntry {
    if Unused(e, nowMs, idleMs) then e.(newConns := Refill(e.newConns, p.newConns, nowMs)) else e
  }

  predicate Dropped(e: IpEntry, p: IpPolicy, nowMs: int, idleMs: int) {
    Unused(e, nowMs, idleMs) && Full(e.newConns, p.newConns, nowMs)
  }

  function SweepAll(m: IpEntries, p: IpPolicy, nowMs: int, idleMs: int): IpEntries {
    map key | key in m && !Dropped(m[key], p, nowMs, idleMs) :: Swept(m[key], p, nowMs, idleMs)
  }

  /** How many connections the limiter believes an address holds. */
  function Held(m: IpEntries, key: Address): nat {
    if key in m then m[key].connections else 0
  }

  class IpLimiter {
    var entries: IpEntries
    const policy: IpPolicy

    constructor (policy: IpPolicy)
      ensures this.policy == policy && entries == map[]
    {
      this.policy := policy;
      entries := map[];
    }

    method TryAdmit(key: Address, nowMs: int) returns (answer: Admission)
      modifies this
      ensures (entries, answer) == Admit(old(entries), policy, key, nowMs)
    {
      if key !in entries {
        entries := entries[key := IpEntry(0, Bucket(policy.newConns.capacity, nowMs), nowMs)];
      }
      entries := entries[key := entries[key].(lastSeenMs := nowMs)];
      if entries[key].connections >= policy.maxConcurrent {
        assert entries == Admit(old(entries), policy, key, nowMs).0;
        return TooMany;
      }
      var (bucket, taken) := TakeFrom(entries[key].newConns, policy.newConns, 1.0, nowMs);
      entries := entries[key := entries[key].(newConns := bucket)];
      if !taken {
        assert entries == Admit(old(entries), policy, key, nowMs).0;
        return TooFast;
      }
      entries := entries[key := entries[key].(connections := entries[key].connections + 1)];
      assert entries == Admit(old(entries), policy, key, nowMs).0;
      return Ok;
    }

    method ReleaseOne(key: Address, nowMs: int)
      modifies this
      ensures entries == Release(old(entries), key, nowMs)
    {
      if key !in entries {
        return;
      }
      var left := entries[key].connections - 1;
      entries := entries[key := entries[key].(connections := if left > 0 then left else 0, lastSeenMs := nowMs)];
    }

    method Sweep(nowMs: int, idleMs: int)
      modifies this
      ensures entries == SweepAll(old(entries), policy, nowMs, idleMs)
    {
      var unseen := entries.Keys;
      while unseen != {}
        invariant unseen <= entries.Keys <= old(entries).Keys
        invariant forall k | k in unseen :: entries[k] == old(entries)[k]
        invariant forall k | k in old(entries) && k !in unseen ::
            k in entries <==> !Dropped(old(entries)[k], policy, nowMs, idleMs)
        invariant forall k | k in entries && k !in unseen ::
            entries[k] == Swept(old(entries)[k], policy, nowMs, idleMs)
      {
        var key :| key in unseen;
        unseen := unseen - {key};
        var entry := entries[key];
        if entry.connections == 0 && nowMs - entry.lastSeenMs > idleMs {
          var bucket := Refill(entry.newConns, policy.newConns, nowMs);
          entries := entries[key := entry.(newConns := bucket)];
          if bucket.tokens >= policy.newConns.capacity {
            entries := entries - {key};
          }
        }
      }
    }
  }

  // ------------------------------------------------------------------ sweeping cannot be observed

  datatype IpEvent =
    | Arriving(key: Address, at: int)
    | Leaving(key: Address, at: int)
    | Sweeping(at: int, idleMs: int)

  function Step(m: IpEntries, p: IpPolicy, e: IpEvent): IpEntries {
    match e
    case Arriving(key, at) => Admit(m, p, key, at).0
    case Leaving(key, at) => Release(m, key, at)
    case Sweeping(at, idleMs) => SweepAll(m, p, at, idleMs)
  }

  /** The answers `admit` gives over a run, in order. With `sweeping` off, sweeps do nothing. */
  function Answers(m: IpEntries, p: IpPolicy, events: seq<IpEvent>, sweeping: bool): seq<Admission>
    decreases |events|
  {
    if events == [] then []
    else
      var e := events[0];
      var after := if e.Sweeping? && !sweeping then m else Step(m, p, e);
      (if e.Arriving? then [Admit(m, p, e.key, e.at).1] else []) + Answers(after, p, events[1..], sweeping)
  }

  predicate InOrder(sinceMs: int, events: seq<IpEvent>)
    decreases |events|
  {
    events != [] ==> sinceMs <= events[0].at && InOrder(events[0].at, events[1..])
  }

  predicate SoundPolicy(p: IpPolicy) {
    p.newConns.capacity >= 0.0 && p.newConns.refillPerSec >= 0.0
  }

  predicate SoundEntries(m: IpEntries, p: IpPolicy, nowMs: int) {
    forall k | k in m :: Sound(m[k].newConns, p.newConns) && m[k].newConns.lastRefillMs <= nowMs
  }

  /**
   * Two limiters that nobody can tell apart from `nowMs` on: an address only `kept` knows holds no
   * connection there and has a full bucket, and the rest agree on connections and on what their
   * buckets hold once refilled.
   */
  ghost predicate Alike(kept: IpEntries, swept: IpEntries, p: IpPolicy, nowMs: int) {
    swept.Keys <= kept.Keys
    && (forall k | k in kept && k !in swept ::
          kept[k].connections == 0 && Refill(kept[k].newConns, p.newConns, nowMs) == Bucket(p.newConns.capacity, nowMs))
    && (forall k | k in swept ::
          swept[k].connections == kept[k].connections
          && Refill(swept[k].newConns, p.newConns, nowMs) == Refill(kept[k].newConns, p.newConns, nowMs))
  }

  /** What `Alike` says of one address. `kept` may know it when `swept` does not, and not the other way round. */
  ghost predicate AlikeAt(kept: IpEntries, swept: IpEntries, p: IpPolicy, nowMs: int, k: Address) {
    && (k in swept ==> k in kept)
    && (k in kept && k !in swept ==>
          kept[k].connections == 0 && Refill(kept[k].newConns, p.newConns, nowMs) == Bucket(p.newConns.capacity, nowMs))
    && (k in swept ==>
          swept[k].connections == kept[k].connections
          && Refill(swept[k].newConns, p.newConns, nowMs) == Refill(kept[k].newConns, p.newConns, nowMs))
  }

  lemma AlikeEverywhere(kept: IpEntries, swept: IpEntries, p: IpPolicy, nowMs: int)
    ensures Alike(kept, swept, p, nowMs) <==> forall k :: AlikeAt(kept, swept, p, nowMs, k)
  {
    if forall k :: AlikeAt(kept, swept, p, nowMs, k) {
      forall k | k in swept
        ensures k in kept
      {
        assert AlikeAt(kept, swept, p, nowMs, k);
      }
      forall k | k in kept && k !in swept
        ensures kept[k].connections == 0
                && Refill(kept[k].newConns, p.newConns, nowMs) == Bucket(p.newConns.capacity, nowMs)
      {
        assert AlikeAt(kept, swept, p, nowMs, k);
      }
      forall k | k in swept
        ensures swept[k].connections == kept[k].connections
                && Refill(swept[k].newConns, p.newConns, nowMs) == Refill(kept[k].newConns, p.newConns, nowMs)
      {
        assert AlikeAt(kept, swept, p, nowMs, k);
      }
    }
  }

  lemma AlikeLaterAt(kept: IpEntries, swept: IpEntries, p: IpPolicy, thenMs: int, nowMs: int, k: Address)
    requires SoundPolicy(p) && thenMs <= nowMs
    requires SoundEntries(kept, p, thenMs) && SoundEntries(swept, p, thenMs) && AlikeAt(kept, swept, p, thenMs, k)
    ensures AlikeAt(kept, swept, p, nowMs, k)
  {
    if k in kept {
      RefillTwice(kept[k].newConns, p.newConns, thenMs, nowMs);
    }
    if k in swept {
      RefillTwice(swept[k].newConns, p.newConns, thenMs, nowMs);
    }
  }

  lemma AlikeLater(kept: IpEntries, swept: IpEntries, p: IpPolicy, thenMs: int, nowMs: int)
    requires SoundPolicy(p) && thenMs <= nowMs
    requires SoundEntries(kept, p, thenMs) && SoundEntries(swept, p, thenMs) && Alike(kept, swept, p, thenMs)
    ensures SoundEntries(kept, p, nowMs) && SoundEntries(swept, p, nowMs) && Alike(kept, swept, p, nowMs)
  {
    AlikeEverywhere(kept, swept, p, thenMs);
    forall k
      ensures AlikeAt(kept, swept, p, nowMs, k)
    {
      AlikeLaterAt(kept, swept, p, thenMs, nowMs, k);
    }
    AlikeEverywhere(kept, swept, p, nowMs);
  }

  lemma AdmitAlikeAt(kept: IpEntries, swept: IpEntries, p: IpPolicy, key: Address, nowMs: int, k: Address)
    requires SoundPolicy(p)
    requires SoundEntries(kept, p, nowMs) && SoundEntries(swept, p, nowMs)
    requires AlikeAt(kept, swept, p, nowMs, key) && AlikeAt(kept, swept, p, nowMs, k)
    ensures AlikeAt(Admit(kept, p, key, nowMs).0, Admit(swept, p, key, nowMs).0, p, nowMs, k)
  {
  }

  lemma AdmitAlike(kept: IpEntries, swept: IpEntries, p: IpPolicy, key: Address, nowMs: int)
    requires SoundPolicy(p)
    requires SoundEntries(kept, p, nowMs) && SoundEntries(swept, p, nowMs) && Alike(kept, swept, p, nowMs)
    ensures Admit(kept, p, key, nowMs).1 == Admit(swept, p, key, nowMs).1
    ensures var k, s := Admit(kept, p, key, nowMs).0, Admit(swept, p, key, nowMs).0;
            SoundEntries(k, p, nowMs) && SoundEntries(s, p, nowMs) && Alike(k, s, p, nowMs)
  {
    AlikeEverywhere(kept, swept, p, nowMs);
    AnswersAlike(kept, swept, p, key, nowMs);
    AdmitSound(kept, p, key, nowMs);
    AdmitSound(swept, p, key, nowMs);
    var admitted, admittedSwept := Admit(kept, p, key, nowMs).0, Admit(swept, p, key, nowMs).0;
    forall k
      ensures AlikeAt(admitted, admittedSwept, p, nowMs, k)
    {
      AdmitAlikeAt(kept, swept, p, key, nowMs, k);
    }
    AlikeEverywhere(admitted, admittedSwept, p, nowMs);
  }

  lemma AnswersAlike(kept: IpEntries, swept: IpEntries, p: IpPolicy, key: Address, nowMs: int)
    requires SoundPolicy(p) && AlikeAt(kept, swept, p, nowMs, key)
    ensures Admit(kept, p, key, nowMs).1 == Admit(swept, p, key, nowMs).1
  {
  }

  lemma AdmitSound(m: IpEntries, p: IpPolicy, key: Address, nowMs: int)
    requires SoundPolicy(p) && SoundEntries(m, p, nowMs)
    ensures SoundEntries(Admit(m, p, key, nowMs).0, p, nowMs)
  {
  }

  lemma SweepAlike(kept: IpEntries, swept: IpEntries, p: IpPolicy, nowMs: int, idleMs: int)
    requires SoundPolicy(p)
    requires SoundEntries(kept, p, nowMs) && SoundEntries(swept, p, nowMs) && Alike(kept, swept, p, nowMs)
    ensures var s := SweepAll(swept, p, nowMs, idleMs);
            SoundEntries(s, p, nowMs) && Alike(kept, s, p, nowMs)
  {
  }

  lemma {:induction false} AlikeAnswerAlike(kept: IpEntries, swept: IpEntries, p: IpPolicy, nowMs: int, events: seq<IpEvent>)
    requires SoundPolicy(p) && InOrder(nowMs, events)
    requires SoundEntries(kept, p, nowMs) && SoundEntries(swept, p, nowMs) && Alike(kept, swept, p, nowMs)
    ensures Answers(kept, p, events, false) == Answers(swept, p, events, true)
    decreases |events|
  {
    if events != [] {
      var e := events[0];
      AlikeLater(kept, swept, p, nowMs, e.at);
      match e {
        case Arriving(key, at) =>
          AdmitAlike(kept, swept, p, key, at);
          AlikeAnswerAlike(Step(kept, p, e), Step(swept, p, e), p, at, events[1..]);
        case Leaving(key, at) =>
          AlikeAnswerAlike(Step(kept, p, e), Step(swept, p, e), p, at, events[1..]);
        case Sweeping(at, idleMs) =>
          SweepAlike(kept, swept, p, at, idleMs);
          AlikeAnswerAlike(kept, Step(swept, p, e), p, at, events[1..]);
      }
    }
  }

  /** With a clock that never goes back, a limiter that sweeps answers exactly as one that never does. */
  lemma SweepingIsInvisible(p: IpPolicy, startMs: int, events: seq<IpEvent>)
    requires SoundPolicy(p) && InOrder(startMs, events)
    ensures Answers(map[], p, events, true) == Answers(map[], p, events, false)
  {
    AlikeAnswerAlike(map[], map[], p, startMs, events);
  }

  // ------------------------------------------------------------------ what each operation does to the count

  lemma HeldAfterAdmit(m: IpEntries, p: IpPolicy, key: Address, nowMs: int, other: Address)
    ensures var (after, answer) := Admit(m, p, key, nowMs);
            Held(after, other) == Held(m, other) + (if other == key && answer == Ok then 1 else 0)
            && (answer == Ok ==> Held(after, key) <= p.maxConcurrent)
  {
  }

  lemma HeldAfterRelease(m: IpEntries, key: Address, nowMs: int, other: Address)
    ensures Held(Release(m, key, nowMs), other)
            == if other == key && Held(m, other) > 0 then Held(m, other) - 1 else Held(m, other)
  {
  }

  /** A sweep forgets no connection. */
  lemma HeldAfterSweep(m: IpEntries, p: IpPolicy, nowMs: int, idleMs: int, other: Address)
    ensures Held(SweepAll(m, p, nowMs, idleMs), other) == Held(m, other)
  {
  }

  /** What a bucket of this address would hold now. */
  function TokensFor(m: IpEntries, p: IpPolicy, key: Address, nowMs: int): real {
    if key in m then Refill(m[key].newConns, p.newConns, nowMs).tokens else p.newConns.capacity
  }

  /** Whether the address holds fewer connections than it may and has a token to spend. */
  predicate LetsIn(m: IpEntries, p: IpPolicy, key: Address, nowMs: int) {
    Held(m, key) < p.maxConcurrent && TokensFor(m, p, key, nowMs) >= 1.0
  }

  /** Exactly an address at its cap has too many, and exactly one below it without a token is too fast. */
  lemma AnswerMeans(m: IpEntries, p: IpPolicy, key: Address, nowMs: int)
    ensures var answer := Admit(m, p, key, nowMs).1;
            && (answer == Ok <==> LetsIn(m, p, key, nowMs))
            && (answer == TooMany <==> Held(m, key) >= p.maxConcurrent)
  {
  }

  /**
   * A sweep forgets exactly the addresses without a connection that were last seen too long ago and
   * whose bucket would be full by now. Nobody else's connections or tokens change.
   */
  lemma SweepForgetsExactly(m: IpEntries, p: IpPolicy, nowMs: int, idleMs: int, key: Address)
    ensures var after := SweepAll(m, p, nowMs, idleMs);
            && (key in after <==>
                  key in m && !(m[key].connections == 0 && nowMs - m[key].lastSeenMs > idleMs
                                && TokensFor(m, p, key, nowMs) >= p.newConns.capacity))
            && (key in after ==>
                  after[key].connections == m[key].connections && after[key].lastSeenMs == m[key].lastSeenMs
                  && TokensFor(after, p, key, nowMs) == TokensFor(m, p, key, nowMs))
  {
  }

  // ------------------------------------------------------------------ every answer, from the run alone

  /** The limiter after a run. With `sweeping` off, sweeps do nothing. */
  function After(p: IpPolicy, events: seq<IpEvent>, sweeping: bool): IpEntries {
    if events == [] then map[]
    else
      var before, e := After(p, events[..|events| - 1], sweeping), events[|events| - 1];
      if e.Sweeping? && !sweeping then before else Step(before, p, e)
  }

  predicate InTime(events: seq<IpEvent>) {
    forall i, j | 0 <= i < j < |events| :: events[i].at <= events[j].at
  }

  /** The answer the limiter gives to an arrival after a run. */
  function AnswerAfter(p: IpPolicy, events: seq<IpEvent>, key: Address, at: int): Admission {
    Admit(After(p, events, true), p, key, at).1
  }

  /** The connections of an address that were let in and have not left. */
  function Open(p: IpPolicy, events: seq<IpEvent>, key: Address): nat {
    if events == [] then 0
    else
      var init, e := events[..|events| - 1], events[|events| - 1];
      var open := Open(p, init, key);
      if e == Arriving(key, e.at) && AnswerAfter(p, init, key, e.at) == Ok then open + 1
      else if e == Leaving(key, e.at) && open > 0 then open - 1
      else open
  }

  /** When an address first arrived. */
  function FirstArrival(events: seq<IpEvent>, key: Address): Option<int> {
    if events == [] then None
    else
      var before, e := FirstArrival(events[..|events| - 1], key), events[|events| - 1];
      if before.None? && e == Arriving(key, e.at) then Some(e.at) else before
  }

  /** The tokens an address tried to take: one an arrival that found it below its cap. */
  function Tries(p: IpPolicy, events: seq<IpEvent>, key: Address): seq<BucketCall> {
    if events == [] then []
    else
      var init, e := events[..|events| - 1], events[|events| - 1];
      Tries(p, init, key)
      + if e == Arriving(key, e.at) && Open(p, init, key) < p.maxConcurrent then [Take(1.0, e.at)] else []
  }

  /** The bucket of an address that arrives at `at`: full when it first came, and drawn on by its tries since. */
  function BucketOf(p: IpPolicy, events: seq<IpEvent>, key: Address, at: int): Bucket {
    var first := FirstArrival(events, key);
    AfterCalls(Bucket(p.newConns.capacity, if first.Some? then first.value else at), p.newConns, Tries(p, events, key))
  }

  lemma {:induction false} OneCallMore(b: Bucket, p: BucketPolicy, calls: seq<BucketCall>, call: BucketCall)
    ensures AfterCalls(b, p, calls + [call]) == Call(AfterCalls(b, p, calls), p, call).0
    decreases |calls|
  {
    if calls == [] {
      assert [call][1..] == [];
    } else {
      assert (calls + [call])[1..] == calls[1..] + [call];
      OneCallMore(Call(b, p, calls[0]).0, p, calls[1..], call);
    }
  }

  lemma {:induction false} RunAlike(p: IpPolicy, events: seq<IpEvent>, nowMs: int)
    requires SoundPolicy(p) && InTime(events) && (events != [] ==> events[|events| - 1].at <= nowMs)
    ensures var kept, swept := After(p, events, false), After(p, events, true);
            SoundEntries(kept, p, nowMs) && SoundEntries(swept, p, nowMs) && Alike(kept, swept, p, nowMs)
  {
    if events != [] {
      var init, e := events[..|events| - 1], events[|events| - 1];
      RunAlike(p, init, e.at);
      var kept, swept := After(p, init, false), After(p, init, true);
      match e {
        case Arriving(key, at) => AdmitAlike(kept, swept, p, key, at);
        case Leaving(key, at) =>
        case Sweeping(at, idleMs) => SweepAlike(kept, swept, p, at, idleMs);
      }
      AlikeLater(After(p, events, false), After(p, events, true), p, e.at, nowMs);
    }
  }

  /** An address the unswept limiter knows has the connections and the bucket the run alone says it has. */
  ghost predicate Followed(p: IpPolicy, events: seq<IpEvent>, key: Address) {
    var m := After(p, events, false);
    && Held(m, key) == Open(p, events, key)
    && (key in m <==> FirstArrival(events, key).Some?)
    && (key in m ==> m[key].newConns == BucketOf(p, events, key, 0))
    && (key !in m ==> Tries(p, events, key) == [])
  }

  /** What an arrival does to the bucket of its address. */
  lemma ArrivalDraws(m: IpEntries, p: IpPolicy, key: Address, at: int)
    ensures var before := EntryFor(m, p, key, at).newConns;
            var after := Admit(m, p, key, at).0;
            key in after && after[key].newConns
            == if Held(m, key) < p.maxConcurrent then Call(before, p.newConns, Take(1.0, at)).0 else before
  {
  }

  lemma ArrivalFollowed(p: IpPolicy, events: seq<IpEvent>, key: Address, at: int)
    requires events != [] && events[|events| - 1] == Arriving(key, at)
    requires Followed(p, events[..|events| - 1], key)
    requires AnswerAfter(p, events[..|events| - 1], key, at) == Admit(After(p, events[..|events| - 1], false), p, key, at).1
    ensures Followed(p, events, key)
  {
    var init := events[..|events| - 1];
    var m := After(p, init, false);
    ArrivalDraws(m, p, key, at);
    AnswerMeans(m, p, key, at);
    HeldAfterAdmit(m, p, key, at, key);
    assert EntryFor(m, p, key, at).newConns == BucketOf(p, init, key, at);
    var full := Bucket(p.newConns.capacity, FirstArrival(events, key).value);
    var tries := Tries(p, init, key);
    assert BucketOf(p, init, key, at) == AfterCalls(full, p.newConns, tries);
    if Held(m, key) < p.maxConcurrent {
      assert Tries(p, events, key) == tries + [Take(1.0, at)];
      OneCallMore(full, p.newConns, tries, Take(1.0, at));
    } else {
      assert Tries(p, events, key) == tries;
    }
  }

  lemma OthersFollowed(p: IpPolicy, events: seq<IpEvent>, key: Address)
    requires events != [] && Followed(p, events[..|events| - 1], key)
    requires var e := events[|events| - 1]; e != Arriving(key, e.at)
    ensures Followed(p, events, key)
  {
    var init, e := events[..|events| - 1], events[|events| - 1];
    var m, after := After(p, init, false), After(p, events, false);
    assert key in after <==> key in m;
    assert key in m ==> after[key].newConns == m[key].newConns;
    assert Held(after, key) == Open(p, events, key);
    assert FirstArrival(events, key) == FirstArrival(init, key);
    assert Tries(p, events, key) == Tries(p, init, key);
  }

  lemma {:induction false} RunFollows(p: IpPolicy, events: seq<IpEvent>, key: Address)
    requires SoundPolicy(p) && InTime(events)
    ensures Followed(p, events, key)
  {
    if events != [] {
      var init, e := events[..|events| - 1], events[|events| - 1];
      RunFollows(p, init, key);
      if e == Arriving(key, e.at) {
        RunAlike(p, init, e.at);
        AnswersAlike(After(p, init, false), After(p, init, true), p, key, e.at);
        ArrivalFollowed(p, events, key, e.at);
      } else {
        OthersFollowed(p, events, key);
      }
    }
  }

  /**
   * With a clock that never goes back, an address has too many connections exactly when as many as it
   * may hold were let in and have not left; otherwise it is let in exactly when a bucket that was full
   * when it first came, and gave a token to each try it could, still has one. Sweeps make no difference.
   */
  lemma AnsweredExactlyWhen(p: IpPolicy, events: seq<IpEvent>, key: Address, nowMs: int)
    requires SoundPolicy(p) && InTime(events) && (events != [] ==> events[|events| - 1].at <= nowMs)
    ensures var answer := AnswerAfter(p, events, key, nowMs);
            && (answer == TooMany <==> Open(p, events, key) >= p.maxConcurrent)
            && (answer == Ok <==>
                  Open(p, events, key) < p.maxConcurrent
                  && Refill(BucketOf(p, events, key, nowMs), p.newConns, nowMs).tokens >= 1.0)
  {
    RunFollows(p, events, key);
    RunAlike(p, events, nowMs);
    AnswersAlike(After(p, events, false), After(p, events, true), p, key, nowMs);
    AnswerMeans(After(p, events, false), p, key, nowMs);
  }

  /** When an address last came or left. */
  function LastAt(events: seq<IpEvent>, key: Address): Option<int> {
    if events == [] then None
    else
      var e := events[|events| - 1];
      if e == Arriving(key, e.at) || e == Leaving(key, e.at) then Some(e.at) else LastAt(events[..|events| - 1], key)
  }

  /** Over every run, an address the limiter knows was last seen when it last came or left, whatever was swept. */
  lemma {:induction false} LastSeenWhenItCameOrLeft(p: IpPolicy, events: seq<IpEvent>, key: Address)
    ensures var m := After(p, events, true); key in m ==> LastAt(events, key) == Some(m[key].lastSeenMs)
  {
    if events != [] {
      LastSeenWhenItCameOrLeft(p, events[..|events| - 1], key);
    }
  }
}
