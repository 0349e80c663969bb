// Token buckets: the per-caller limiter of the API and the blocking one of the collector.

module RateLimit {
  import opened Lines

  datatype Config = Config(capacity: real, refillPerSecond: real, pruneAfterMs: real) {
    predicate Positive() {
      capacity > 0.0 && refillPerSecond > 0.0
    }

    function RefillPerMs(): real {
      refillPerSecond / 1000.0
    }
  }

  const PRUNE_EVERY := 256

  datatype Bucket = Bucket(tokens: real, updatedAt: real)

  datatype Answer = Answer(allowed: bool, remaining: real, retryAfterMs: int)

  function Least(a: real, b: real): real {
    if a < b then a else b
  }

  // What a stretch of time adds to a bucket.
  type Gain = (real, real) -> real

  function GainOf(config: Config): Gain {
    (from: real, to: real) => (to - from) * config.RefillPerMs()
  }

  // ---------------------------------------------------------------- one bucket

  // The tokens there would be at a time; a caller without a bucket has a full one.
  function Level(capacity: real, gain: Gain, bucket: Option<Bucket>, at: real): real {
    match bucket
    case None => capacity
    case Some(b) => if at > b.updatedAt then Least(capacity, b.tokens + gain(b.updatedAt, at)) else b.tokens
  }

  predicate Grants(capacity: real, gain: Gain, bucket: Option<Bucket>, at: real) {
    Level(capacity, gain, bucket, at) >= 1.0
  }

  function Spend(capacity: real, gain: Gain, bucket: Option<Bucket>, at: real): Bucket {
    Bucket(Level(capacity, gain, bucket, at) - (if Grants(capacity, gain, bucket, at) then 1.0 else 0.0), at)
  }

  function Wait(tokens: real, config: Config): int
    requires config.Positive()
  {
    Ceil((1.0 - tokens) / config.RefillPerMs())
  }

  function Reply(config: Config, bucket: Option<Bucket>, at: real): Answer
    requires config.Positive()
  {
    var tokens := Level(config.capacity, GainOf(config), bucket, at);
    if tokens >= 1.0 then Answer(true, tokens - 1.0, 0) else Answer(false, 0.0, Wait(tokens, config))
  }

  // ---------------------------------------------------------------- the limiter of the API

  type Buckets = map<string, Bucket>

  datatype State = State(buckets: Buckets, consultCount: nat)

  function Get(buckets: Buckets, key: string): Option<Bucket> {
    if key in buckets then Some(buckets[key]) else None
  }

  predicate Untouched(config: Config, b: Bucket, at: real) {
    at - b.updatedAt > config.pruneAfterMs
  }

  function Pruned(config: Config, buckets: Buckets, at: real): Buckets {
    map key | key in buckets && !Untouched(config, buckets[key], at) :: buckets[key]
  }

  function Consumed(config: Config, s: State, key: string, at: real): State
    requires config.Positive()
  {
    var buckets := s.buckets[key := Spend(config.capacity, GainOf(config), Get(s.buckets, key), at)];
    var count := s.consultCount + 1;
    State(if count % PRUNE_EVERY == 0 then Pruned(config, buckets, at) else buckets, count)
  }

  class ApiRateLimiter {
    const config: Config
    var buckets: Buckets
    var consultCount: nat

    ghost function Abs(): State
      reads this
    {
      State(buckets, consultCount)
    }

    constructor (config: Config)
      requires config.Positive()
      ensures this.config == config && Abs() == State(map[], 0)
    {
      this.config, buckets, consultCount := config, map[], 0;
    }

    method Consume(key: string, at: real) returns (answer: Answer)
      requires config.Positive()
      modifies this
      ensures answer == Reply(config, Get(old(buckets), key), at)
      ensures Abs() == Consumed(config, old(Abs()), key, at)
    {
      var tokens := config.capacity;
      if key in buckets {
        tokens := buckets[key].tokens;
        var elapsedMs := at - buckets[key].updatedAt;
        assert elapsedMs * config.RefillPerMs() == GainOf(config)(buckets[key].updatedAt, at);
        if elapsedMs > 0.0 {
          tokens := Least(config.capacity, tokens + elapsedMs * config.RefillPerMs());
        }
      }
      if tokens >= 1.0 {
        buckets := buckets[key := Bucket(tokens - 1.0, at)];
        answer := Answer(true, tokens - 1.0, 0);
      } else {
        buckets := buckets[key := Bucket(tokens, at)];
        answer := Answer(false, 0.0, Ceil((1.0 - tokens) / config.RefillPerMs()));
      }
      MaybePrune(at);
    }

    method MaybePrune(at: real)
      modifies this
      ensures consultCount == old(consultCount) + 1
      ensures buckets == if consultCount % PRUNE_EVERY == 0 then Pruned(config, old(buckets), at) else old(buckets)
    {
      consultCount := consultCount + 1;
      if consultCount % PRUNE_EVERY != 0 {
        return;
      }
      ghost var before := buckets;
      var left := buckets.Keys;
      while left != {}
        invariant left <= before.Keys && consultCount == old(consultCount) + 1
        invariant buckets == map key | key in before && (key in left || !Untouched(config, before[key], at)) :: before[key]
        decreases |left|
      {
        var key :| key in left;
        if Untouched(config, buckets[key], at) {
          buckets := buckets - {key};
        }
        left := left - {key};
      }
      assert buckets == Pruned(config, before, at);
    }

    method Reset()
      modifies this
      ensures Abs() == old(Abs()).(buckets := map[])
    {
      buckets := map[];
    }
  }

  method NewLimiter(config: Config) returns (r: Option<ApiRateLimiter>)
    ensures r.Some? <==> config.Positive()
    ensures r.Some? ==> fresh(r.value) && r.value.config == config && r.value.Abs() == State(map[], 0)
  {
    if config.capacity <= 0.0 || config.refillPerSecond <= 0.0 {
      return None;
    }
    var limiter := new ApiRateLimiter(config);
    r := Some(limiter);
  }

  // ---------------------------------------------------------------- the limiter of the collector

  // Refilling changes nothing unless time has passed.
  function Refilled(capacity: real, gain: Gain, b: Bucket, at: real): Bucket {
    if at > b.updatedAt then Bucket(Level(capacity, gain, Some(b), at), at) else b
  }

  function Taken(b: Bucket): Bucket {
    b.(tokens := b.tokens - 1.0)
  }

  class TokenBucketRateLimiter {
    const config: Config
    var tokens: real
    var lastRefillMs: real

    ghost function Abs(): Bucket
      reads this
    {
      Bucket(tokens, lastRefillMs)
    }

    constructor (config: Config, at: real)
      requires config.Positive()
      ensures this.config == config && Abs() == Bucket(config.capacity, at)
    {
      this.config, tokens, lastRefillMs := config, config.capacity, at;
    }

    method Refill(at: real)
      modifies this
      ensures Abs() == Refilled(config.capacity, GainOf(config), old(Abs()), at)
    {
      var elapsedMs := at - lastRefillMs;
      if elapsedMs <= 0.0 {
        return;
      }
      assert elapsedMs * config.RefillPerMs() == GainOf(config)(lastRefillMs, at);
      tokens := Least(config.capacity, tokens + elapsedMs * config.RefillPerMs());
      lastRefillMs := at;
    }

    method QueuedMs(at: real) returns (ms: int)
      requires config.Positive()
      modifies this
      ensures Abs() == Refilled(config.capacity, GainOf(config), old(Abs()), at)
      ensures ms == if tokens >= 1.0 then 0 else Wait(tokens, config)
    {
      Refill(at);
      ms := if tokens >= 1.0 then 0 else Ceil((1.0 - tokens) / config.RefillPerMs());
    }

    // One round of the loop: take a token, or say how long to sleep.
    method Attempt(at: real) returns (taken: bool, ms: int)
      requires config.Positive()
      modifies this
      ensures var b := Refilled(config.capacity, GainOf(config), old(Abs()), at);
              && (taken <==> b.tokens >= 1.0)
              && Abs() == (if taken then Taken(b) else b)
              && (!taken ==> ms >= 1 && ms >= Wait(b.tokens, config))
    {
      Refill(at);
      taken, ms := tokens >= 1.0, 0;
      if taken {
        tokens := tokens - 1.0;
      } else {
        var queued := QueuedMs(at);
        ms := if queued < 1 then 1 else queued;
      }
    }

    // Sleeps until a token is there. The clock may oversleep, and every sleep lasts at least as long as asked.
    method Acquire(at: real, oversleep: nat -> real) returns (done: real, rounds: nat)
      requires config.Positive() && config.capacity >= 1.0
      requires 0.0 <= tokens <= config.capacity && lastRefillMs <= at
      requires forall i :: oversleep(i) >= 0.0
      modifies this
      ensures done >= at && rounds <= 2
      ensures Abs() == Taken(Refilled(config.capacity, GainOf(config), old(Abs()), done)) && tokens >= 0.0
    {
      done, rounds := at, 0;
      ghost var before := Abs();
      var taken, ms := false, 0;
      while !taken
        invariant rounds <= 2 && at <= done
        invariant !taken && rounds == 0 ==> Abs() == before && done == at
        invariant !taken && rounds > 0 ==>
          && rounds == 1 && Abs() == Refilled(config.capacity, GainOf(config), before, at)
          && tokens + (done - at) * config.RefillPerMs() >= 1.0 && tokens < 1.0
        invariant taken ==> Abs() == Taken(Refilled(config.capacity, GainOf(config), before, done)) && tokens >= 0.0
        decreases 2 - rounds, !taken
      {
        RefillTwice(config, before, at, done);
        taken, ms := Attempt(done);
        rounds := rounds + 1;
        if !taken {
          WaitFills(config, tokens, ms, oversleep(rounds));
          done := done + ms as real + oversleep(rounds);
        }
      }
    }
  }

  lemma RefillTwice(config: Config, b: Bucket, first: real, at: real)
    requires config.Positive() && b.updatedAt <= first <= at
    ensures var once := Refilled(config.capacity, GainOf(config), b, first);
            && once.updatedAt == first
            && Refilled(config.capacity, GainOf(config), once, at) == Refilled(config.capacity, GainOf(config), b, at)
  {
    var rate := config.RefillPerMs();
    assert (first - b.updatedAt) * rate + (at - first) * rate == (at - b.updatedAt) * rate;
    assert (at - first) * rate >= 0.0;
  }

  lemma WaitFills(config: Config, tokens: real, ms: int, more: real)
    requires config.Positive() && tokens < 1.0 && ms >= Wait(tokens, config) && more >= 0.0
    ensures tokens + (ms as real + more) * config.RefillPerMs() >= 1.0
  {
    var rate := config.RefillPerMs();
    var need := (1.0 - tokens) / rate;
    assert need * rate == 1.0 - tokens;
    CeilIsAbove(need, ms);
    assert (ms as real + more - need) * rate >= 0.0;
  }

  lemma CeilIsAbove(x: real, n: int)
    requires n >= Ceil(x)
    ensures n as real >= x
  {
  }
}
