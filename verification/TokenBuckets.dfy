/**
 * The token bucket of server/src/limits.ts.
 *
 * Token amounts are real numbers and times are whole milliseconds handed in by the caller, who may
 * hand in a clock that jumps backwards.
 */
module TokenBuckets {

  datatype BucketPolicy = BucketPolicy(capacity: real, refillPerSec: real)

  datatype Bucket = Bucket(tokens: real, lastRefillMs: int)

  function Min(a: real, b: real): real {
    if a <= b then a else b
  }

  /** What `ms` milliseconds are worth in tokens. */
  function Earned(p: BucketPolicy, ms: int): real {
    (ms as real / 1000.0) * p.refillPerSec
  }

  function Refill(b: Bucket, p: BucketPolicy, nowMs: int): Bucket {
    if nowMs <= b.lastRefillMs then
      b.(lastRefillMs := nowMs)
    else
      Bucket(Min(p.capacity, b.tokens + Earned(p, nowMs - b.lastRefillMs)), nowMs)
  }

  function TakeFrom(b: Bucket, p: BucketPolicy, cost: real, nowMs: int): (Bucket, bool) {
    var full := Refill(b, p, nowMs);
    if full.tokens < cost then (full, false) else (full.(tokens := full.tokens - cost), true)
  }

  /** The least whole number that is not below `x`. */
  function Ceil(x: real): int {
    -(-x).Floor
  }

  function WaitFor(b: Bucket, p: BucketPolicy, cost: real): int
    requires p.refillPerSec > 0.0
  {
    if b.tokens >= cost then 0 else Ceil((cost - b.tokens) / p.refillPerSec * 1000.0)
  }

  predicate Full(b: Bucket, p: BucketPolicy, nowMs: int) {
    Refill(b, p, nowMs).tokens >= p.capacity
  }

  predicate Sound(b: Bucket, p: BucketPolicy) {
    p.refillPerSec >= 0.0 && 0.0 <= b.tokens <= p.capacity
  }

  class TokenBucket {
    var tokens: real
    var lastRefillMs: int
    const capacity: real
    const refillPerSec: real

    function Policy(): BucketPolicy {
      BucketPolicy(capacity, refillPerSec)
    }

    function State(): Bucket
      reads this
    {
      Bucket(tokens, lastRefillMs)
    }

    constructor (capacity: real, refillPerSec: real, nowMs: int)
      ensures Policy() == BucketPolicy(capacity, refillPerSec)
      ensures State() == Bucket(capacity, nowMs)
    {
      this.capacity := capacity;
      this.refillPerSec := refillPerSec;
      tokens := capacity;
      lastRefillMs := nowMs;
    }

    method RefillTo(nowMs: int)
      modifies this
      ensures State() == Refill(old(State()), Policy(), nowMs)
    {
      if nowMs < lastRefillMs {
        lastRefillMs := nowMs;
        return;
      }
      var elapsedSec := (nowMs - lastRefillMs) as real / 1000.0;
      if elapsedSec <= 0.0 {
        return;
      }
      tokens := Min(capacity, tokens + elapsedSec * refillPerSec);
      lastRefillMs := nowMs;
    }

    method Take(cost: real, nowMs: int) returns (ok: bool)
      modifies this
      ensures (State(), ok) == TakeFrom(old(State()), Policy(), cost, nowMs)
    {
      RefillTo(nowMs);
      if tokens < cost {
        return false;
      }
      tokens := tokens - cost;
      return true;
    }

    method RetryAfterMs(cost: real, nowMs: int) returns (ms: int)
      requires refillPerSec > 0.0
      modifies this
      ensures State() == Refill(old(State()), Policy(), nowMs)
      ensures ms == WaitFor(State(), Policy(), cost)
    {
      RefillTo(nowMs);
      if tokens >= cost {
        return 0;
      }
      var missing := cost - tokens;
      return Ceil(missing / refillPerSec * 1000.0);
    }

    method IsIdle(nowMs: int) returns (idle: bool)
      modifies this
      ensures State() == Refill(old(State()), Policy(), nowMs)
      ensures idle == Full(old(State()), Policy(), nowMs)
    {
      RefillTo(nowMs);
      return tokens >= capacity;
    }
  }

  // ------------------------------------------------------------------ every trace of calls

  /** `Look` is `retryAfterMs` or `isIdle`: both refill and spend nothing. */
  datatype BucketCall = Take(cost: real, at: int) | Look(at: int)

  function Call(b: Bucket, p: BucketPolicy, call: BucketCall): (Bucket, real) {
    match call
    case Take(cost, at) =>
      var (after, ok) := TakeFrom(b, p, cost, at);
      (after, if ok then cost else 0.0)
    case Look(at) => (Refill(b, p, at), 0.0)
  }

  function AfterCalls(b: Bucket, p: BucketPolicy, calls: seq<BucketCall>): Bucket
    decreases |calls|
  {
    if calls == [] then b else AfterCalls(Call(b, p, calls[0]).0, p, calls[1..])
  }

  function Granted(b: Bucket, p: BucketPolicy, calls: seq<BucketCall>): real
    decreases |calls|
  {
    if calls == [] then 0.0
    else
      var (after, spent) := Call(b, p, calls[0]);
      spent + Granted(after, p, calls[1..])
  }

  /** The milliseconds the clock moved forward over the calls. Backward steps count for nothing. */
  function ForwardMs(sinceMs: int, calls: seq<BucketCall>): nat
    decreases |calls|
  {
    if calls == [] then 0
    else
      var step := calls[0].at - sinceMs;
      (if step > 0 then step else 0) + ForwardMs(calls[0].at, calls[1..])
  }

  predicate CostsAreAmounts(calls: seq<BucketCall>) {
    forall i | 0 <= i < |calls| && calls[i].Take? :: calls[i].cost >= 0.0
  }

  /** One call spends no more than the bucket held plus what the clock earned it. */
  lemma CallBound(b: Bucket, p: BucketPolicy, call: BucketCall)
    requires Sound(b, p)
    requires call.Take? ==> call.cost >= 0.0
    ensures Sound(Call(b, p, call).0, p)
    ensures Call(b, p, call).0.lastRefillMs == call.at
    ensures Call(b, p, call).1 + Call(b, p, call).0.tokens
            <= b.tokens + Earned(p, if call.at > b.lastRefillMs then call.at - b.lastRefillMs else 0)
  {
    var ms := if call.at > b.lastRefillMs then call.at - b.lastRefillMs else 0;
    assert Earned(p, ms) >= 0.0;
  }

  lemma EarnedAdds(p: BucketPolicy, a: int, b: int)
    ensures Earned(p, a) + Earned(p, b) == Earned(p, a + b)
  {
    var r := p.refillPerSec;
    calc {
      Earned(p, a) + Earned(p, b);
      (a as real / 1000.0 + b as real / 1000.0) * r;
      { assert a as real / 1000.0 + b as real / 1000.0 == (a + b) as real / 1000.0; }
      Earned(p, a + b);
    }
  }

  /**
   * Whatever the clock does, the tokens stay within the capacity and all takes together are paid
   * for by what the bucket started with and what the forward steps of the clock earned.
   */
  lemma {:induction false} TakesAreEarned(b: Bucket, p: BucketPolicy, calls: seq<BucketCall>)
    requires Sound(b, p) && CostsAreAmounts(calls)
    ensures Sound(AfterCalls(b, p, calls), p)
    ensures Granted(b, p, calls) + AfterCalls(b, p, calls).tokens
            <= b.tokens + Earned(p, ForwardMs(b.lastRefillMs, calls))
    decreases |calls|
  {
    if calls == [] {
    } else {
      CallBound(b, p, calls[0]);
      var after := Call(b, p, calls[0]).0;
      TakesAreEarned(after, p, calls[1..]);
      var step := calls[0].at - b.lastRefillMs;
      EarnedAdds(p, if step > 0 then step else 0, ForwardMs(calls[0].at, calls[1..]));
    }
  }

  /** The tokens that found the bucket full. */
  function Lost(b: Bucket, p: BucketPolicy, calls: seq<BucketCall>): real
    decreases |calls|
  {
    if calls == [] then 0.0
    else
      var ms := if calls[0].at > b.lastRefillMs then calls[0].at - b.lastRefillMs else 0;
      var over := b.tokens + Earned(p, ms) - p.capacity;
      (if over > 0.0 then over else 0.0) + Lost(Call(b, p, calls[0]).0, p, calls[1..])
  }

  lemma CallAccounts(b: Bucket, p: BucketPolicy, call: BucketCall)
    requires Sound(b, p)
    ensures var ms := if call.at > b.lastRefillMs then call.at - b.lastRefillMs else 0;
            var over := b.tokens + Earned(p, ms) - p.capacity;
            Call(b, p, call).1 + Call(b, p, call).0.tokens + (if over > 0.0 then over else 0.0) == b.tokens + Earned(p, ms)
  {
  }

  /**
   * Every token is accounted for: what was granted, what is left and what found the bucket full are what
   * it started with and what the forward steps of the clock earned.
   */
  lemma {:induction false} EveryTokenIsAccounted(b: Bucket, p: BucketPolicy, calls: seq<BucketCall>)
    requires Sound(b, p) && CostsAreAmounts(calls)
    ensures Granted(b, p, calls) + AfterCalls(b, p, calls).tokens + Lost(b, p, calls)
            == b.tokens + Earned(p, ForwardMs(b.lastRefillMs, calls))
    decreases |calls|
  {
    if calls != [] {
      CallBound(b, p, calls[0]);
      CallAccounts(b, p, calls[0]);
      var after := Call(b, p, calls[0]).0;
      EveryTokenIsAccounted(after, p, calls[1..]);
      var step := calls[0].at - b.lastRefillMs;
      EarnedAdds(p, if step > 0 then step else 0, ForwardMs(calls[0].at, calls[1..]));
    }
  }

  /** A new bucket grants at most its capacity plus its rate over the clock's forward steps. */
  lemma NewBucketBound(p: BucketPolicy, startMs: int, calls: seq<BucketCall>)
    requires p.capacity >= 0.0 && p.refillPerSec >= 0.0 && CostsAreAmounts(calls)
    ensures Granted(Bucket(p.capacity, startMs), p, calls)
            <= p.capacity + Earned(p, ForwardMs(startMs, calls))
  {
    TakesAreEarned(Bucket(p.capacity, startMs), p, calls);
  }

  // ------------------------------------------------------------------ the retry hint

  lemma CeilIsLeast(x: real, n: int)
    ensures x <= n as real <==> Ceil(x) <= n
  {
  }

  /** Waiting `e` milliseconds earns what is missing exactly when `e` reaches the hint. */
  lemma EarnedCoversMissing(p: BucketPolicy, missing: real, e: int)
    requires p.refillPerSec > 0.0
    ensures missing <= Earned(p, e) <==> Ceil(missing / p.refillPerSec * 1000.0) <= e
  {
    var r := p.refillPerSec;
    var sec := e as real / 1000.0;
    var need := missing / r;
    assert need * r == missing;
    if need <= sec {
      assert need * r <= sec * r;
    } else {
      assert need * r > sec * r;
    }
    CeilIsLeast(need * 1000.0, e);
  }

  /**
   * The hint is exact: with nothing taken in between, a take of at most the capacity succeeds
   * `e` milliseconds later if and only if `e` is at least the hint.
   */
  lemma HintIsExact(b: Bucket, p: BucketPolicy, cost: real, nowMs: int, e: nat)
    requires p.refillPerSec > 0.0 && cost <= p.capacity
    ensures var asked := Refill(b, p, nowMs);
            TakeFrom(asked, p, cost, nowMs + e).1 <==> WaitFor(asked, p, cost) <= e
  {
    var asked := Refill(b, p, nowMs);
    EarnedCoversMissing(p, cost - asked.tokens, e);
    if asked.tokens >= cost {
      assert Earned(p, e) >= 0.0;
    } else {
      assert (cost - asked.tokens) / p.refillPerSec > 0.0;
      CeilIsLeast((cost - asked.tokens) / p.refillPerSec * 1000.0, 0);
    }
  }

  // ------------------------------------------------------------------ refilling in steps

  /** Refilling on the way changes nothing, which is what lets a sweep look at a bucket. */
  lemma RefillTwice(b: Bucket, p: BucketPolicy, midMs: int, nowMs: int)
    requires Sound(b, p) && b.lastRefillMs <= midMs <= nowMs
    ensures Refill(Refill(b, p, midMs), p, nowMs) == Refill(b, p, nowMs)
  {
    EarnedAdds(p, midMs - b.lastRefillMs, nowMs - midMs);
    assert Earned(p, nowMs - midMs) >= 0.0 && Earned(p, midMs - b.lastRefillMs) >= 0.0;
  }
}
