// What a consult of a token bucket answers and leaves, in terms of the configured numbers.

module RateLimitMeans {
  import opened Lines
  import opened RateLimit
  import opened RateLimitTheorems

  // Tokens a millisecond.
  ghost predicate IsRate(config: Config, rate: real) {
    1000.0 * rate == config.refillPerSecond
  }

  ghost predicate IsLesser(x: real, a: real, b: real) {
    x <= a && x <= b && (x == a || x == b)
  }

  // The tokens a caller has: all of them at first, and then those left and what has come in since, up to the capacity.
  ghost predicate Holds(config: Config, rate: real, bucket: Option<Bucket>, at: real, tokens: real) {
    match bucket
    case None => tokens == config.capacity
    case Some(b) =>
      if at <= b.updatedAt then tokens == b.tokens
      else IsLesser(tokens, config.capacity, b.tokens + (at - b.updatedAt) * rate)
  }

  // The first whole number of milliseconds after which there is a token.
  ghost predicate IsFirstWait(tokens: real, rate: real, wait: int) {
    tokens + wait as real * rate >= 1.0 && tokens + (wait - 1) as real * rate < 1.0
  }

  lemma LevelHolds(config: Config, rate: real, bucket: Option<Bucket>, at: real)
    requires IsRate(config, rate)
    ensures Holds(config, rate, bucket, at, Level(config.capacity, GainOf(config), bucket, at))
    ensures rate == config.RefillPerMs()
  {
    assert config.RefillPerMs() == rate;
  }

  lemma FirstWait(config: Config, rate: real, tokens: real)
    requires config.Positive() && IsRate(config, rate) && rate == config.RefillPerMs() && tokens < 1.0
    ensures IsFirstWait(tokens, rate, Wait(tokens, config))
  {
    var wait := Wait(tokens, config);
    var need := (1.0 - tokens) / rate;
    assert need * rate == 1.0 - tokens && need > 0.0;
    assert wait >= 1;
    WaitIsExact(config, tokens, rate, wait);
    WaitIsExact(config, tokens, rate, wait - 1);
  }

  // A caller with a token is let through and has one less; one without is told the first millisecond at which it has one.
  lemma ConsultMeans(config: Config, rate: real, bucket: Option<Bucket>, at: real, tokens: real)
    requires config.Positive() && IsRate(config, rate) && Holds(config, rate, bucket, at, tokens)
    ensures var (answer, after) := (Reply(config, bucket, at), Spend(config.capacity, GainOf(config), bucket, at));
            if tokens >= 1.0 then answer == Answer(true, tokens - 1.0, 0) && after == Bucket(tokens - 1.0, at)
            else
              && !answer.allowed && answer.remaining == 0.0 && IsFirstWait(tokens, rate, answer.retryAfterMs)
              && after == Bucket(tokens, at)
  {
    LevelHolds(config, rate, bucket, at);
    if tokens < 1.0 {
      FirstWait(config, rate, tokens);
    }
  }

  // A consult touches the bucket of its caller alone, except that every 256th one forgets those untouched for too long.
  lemma ConsumedMeans(config: Config, s: State, key: string, at: real)
    requires config.Positive()
    ensures var t := Consumed(config, s, key, at);
            var touched := s.buckets[key := Spend(config.capacity, GainOf(config), Get(s.buckets, key), at)];
            && t.consultCount == s.consultCount + 1
            && (t.consultCount % 256 != 0 ==> t.buckets == touched)
            && (t.consultCount % 256 == 0 ==>
                  && (forall k :: k in t.buckets <==> k in touched && at - touched[k].updatedAt <= config.pruneAfterMs)
                  && (forall k :: k in t.buckets ==> t.buckets[k] == touched[k]))
  {
  }

  // The collector's bucket holds what a caller's does, keeps its time when the clock stands still or steps back, and
  // gives one token away at a time.
  lemma CollectorMeans(config: Config, rate: real, b: Bucket, at: real)
    requires IsRate(config, rate)
    ensures var r := Refilled(config.capacity, GainOf(config), b, at);
            && Holds(config, rate, Some(b), at, r.tokens) && r.updatedAt == (if at > b.updatedAt then at else b.updatedAt)
            && Taken(r) == Bucket(r.tokens - 1.0, r.updatedAt)
  {
    LevelHolds(config, rate, Some(b), at);
  }
}
