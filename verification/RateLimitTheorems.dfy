// What the limiters admit: each caller is answered as if alone and never pruned, and admitted exactly when
// every window that ends with the request stays within capacity and refill.

module RateLimitTheorems {
  import opened Lines
  import opened RateLimit

  // ---------------------------------------------------------------- one caller

  // The requests of one caller, one bucket, never pruned.
  datatype Track = Track(bucket: Option<Bucket>, granted: seq<bool>)

  function KeyRun(capacity: real, gain: Gain, times: seq<real>): (r: Track)
    ensures |r.granted| == |times| && (r.bucket.Some? <==> |times| > 0)
    ensures |times| > 0 ==> r.bucket.value.updatedAt == times[|times| - 1]
  {
    if |times| == 0 then Track(None, [])
    else
      var n := |times| - 1;
      var before := KeyRun(capacity, gain, times[..n]);
      Track(Some(Spend(capacity, gain, before.bucket, times[n])),
            before.granted + [Grants(capacity, gain, before.bucket, times[n])])
  }

  // How many were granted from position i on.
  function Granted(granted: seq<bool>, i: nat): (n: nat)
    ensures i >= |granted| ==> n == 0
  {
    if |granted| <= i then 0
    else
      var n := |granted| - 1;
      Granted(granted[..n], i) + if granted[n] then 1 else 0
  }

  // What the window from request i to a time leaves: capacity and refill less what was granted.
  function Room(capacity: real, gain: Gain, times: seq<real>, granted: seq<bool>, i: nat, at: real): real
    requires i < |times|
  {
    capacity + gain(times[i], at) - Granted(granted, i) as real
  }

  // Time only adds, and adds up.
  ghost predicate Steady(gain: Gain) {
    && (forall a, b, c :: gain(a, b) + gain(b, c) == gain(a, c))
    && (forall a, b :: a <= b ==> gain(a, b) >= 0.0)
  }

  lemma GainAdds(gain: Gain, a: real, b: real, c: real)
    requires Steady(gain)
    ensures gain(a, b) + gain(b, c) == gain(a, c)
  {
  }

  lemma GainIsSteady(config: Config)
    requires config.Positive()
    ensures Steady(GainOf(config))
  {
    var gain, rate := GainOf(config), config.RefillPerMs();
    forall a, b, c ensures gain(a, b) + gain(b, c) == gain(a, c) {
      assert (b - a) * rate + (c - b) * rate == (c - a) * rate;
    }
    forall a: real, b: real | a <= b ensures gain(a, b) >= 0.0 {
      assert (b - a) * rate >= 0.0;
    }
  }

  ghost predicate Ordered(times: seq<real>) {
    forall i, j :: 0 <= i < j < |times| ==> times[i] <= times[j]
  }

  // The level is the least room that any window leaves.
  ghost predicate LeastRoom(capacity: real, gain: Gain, times: seq<real>, granted: seq<bool>, at: real, level: real) {
    && level <= capacity
    && (forall i :: 0 <= i < |times| ==> level <= Room(capacity, gain, times, granted, i, at))
    && (level == capacity || exists i :: 0 <= i < |times| && level == Room(capacity, gain, times, granted, i, at))
  }

  lemma GrantedSnoc(granted: seq<bool>, g: bool, i: nat)
    requires i <= |granted|
    ensures Granted(granted + [g], i) == Granted(granted, i) + if g then 1 else 0
  {
    assert (granted + [g])[..|granted|] == granted;
  }

  lemma RoomSnoc(capacity: real, gain: Gain, times: seq<real>, granted: seq<bool>, i: nat, last: real, g: bool, at: real)
    requires i <= |times| == |granted| && Steady(gain)
    ensures Room(capacity, gain, times + [last], granted + [g], i, at)
         == (if i < |times| then Room(capacity, gain, times, granted, i, last) else capacity)
            + gain(last, at) - (if g then 1.0 else 0.0)
  {
    GrantedSnoc(granted, g, i);
    if i < |times| {
      GainAdds(gain, times[i], last, at);
    }
  }

  // One more request: what is left is what was left, less the grant, plus the refill, up to the capacity.
  lemma LeastRoomStep(capacity: real, gain: Gain, times: seq<real>, granted: seq<bool>, last: real, level: real, g: bool,
      at: real, next: real)
    requires Steady(gain) && |times| == |granted| && LeastRoom(capacity, gain, times, granted, last, level)
    requires next == Least(capacity, level - (if g then 1.0 else 0.0) + gain(last, at))
    ensures LeastRoom(capacity, gain, times + [last], granted + [g], at, next)
  {
    var more, flags := times + [last], granted + [g];
    forall i: nat | i < |more| ensures next <= Room(capacity, gain, more, flags, i, at) {
      RoomSnoc(capacity, gain, times, granted, i, last, g, at);
    }
    if next != capacity {
      if level == capacity {
        RoomSnoc(capacity, gain, times, granted, |times|, last, g, at);
      } else {
        var i: nat :| i < |times| && level == Room(capacity, gain, times, granted, i, last);
        RoomSnoc(capacity, gain, times, granted, i, last, g, at);
        assert next == Room(capacity, gain, more, flags, i, at);
      }
    }
  }

  lemma OrderedFront(times: seq<real>, at: real)
    requires |times| > 0 && Ordered(times + [at])
    ensures Ordered(times) && times[|times| - 1] <= at && times == times[..|times| - 1] + [times[|times| - 1]]
  {
    var all := times + [at];
    assert forall i :: 0 <= i < |times| ==> all[i] == times[i];
    assert all[|times| - 1] <= all[|times|];
  }

  lemma {:induction false} LevelIsLeastRoom(capacity: real, gain: Gain, times: seq<real>, at: real)
    requires Steady(gain) && Ordered(times + [at])
    ensures var run := KeyRun(capacity, gain, times);
            LeastRoom(capacity, gain, times, run.granted, at, Level(capacity, gain, run.bucket, at))
    decreases |times|
  {
    if |times| > 0 {
      var n := |times| - 1;
      var front, last := times[..n], times[n];
      OrderedFront(times, at);
      LevelIsLeastRoom(capacity, gain, front, last);
      var before := KeyRun(capacity, gain, front);
      var level := Level(capacity, gain, before.bucket, last);
      var next := Level(capacity, gain, KeyRun(capacity, gain, times).bucket, at);
      SpentLevel(capacity, gain, before.bucket, last, at);
      LeastRoomStep(capacity, gain, front, before.granted, last, level, level >= 1.0, at, next);
    }
  }

  lemma SpentLevel(capacity: real, gain: Gain, bucket: Option<Bucket>, last: real, at: real)
    requires Steady(gain) && last <= at && Level(capacity, gain, bucket, last) <= capacity
    ensures Level(capacity, gain, Some(Spend(capacity, gain, bucket, last)), at)
         == Least(capacity, Level(capacity, gain, bucket, last) - (if Grants(capacity, gain, bucket, last) then 1.0 else 0.0)
                            + gain(last, at))
  {
    assert gain(last, last) + gain(last, last) == gain(last, last);
  }

  // Admitting this request keeps the window from request i within capacity and refill.
  ghost predicate Conforms(capacity: real, gain: Gain, times: seq<real>, granted: seq<bool>, at: real) {
    && 1.0 <= capacity
    && forall i :: 0 <= i < |times| ==> Granted(granted, i) as real + 1.0 <= capacity + gain(times[i], at)
  }

  // A request is admitted exactly when it conforms: never more than the promise, never less.
  lemma AdmittedExactlyWhen(capacity: real, gain: Gain, times: seq<real>, at: real)
    requires Steady(gain) && Ordered(times + [at])
    ensures var run := KeyRun(capacity, gain, times);
            Grants(capacity, gain, run.bucket, at) <==> Conforms(capacity, gain, times, run.granted, at)
  {
    LevelIsLeastRoom(capacity, gain, times, at);
    var run := KeyRun(capacity, gain, times);
    var level := Level(capacity, gain, run.bucket, at);
    if Conforms(capacity, gain, times, run.granted, at) && level != capacity {
      var i: nat :| i < |times| && level == Room(capacity, gain, times, run.granted, i, at);
      assert Granted(run.granted, i) as real + 1.0 <= capacity + gain(times[i], at);
    }
    if Grants(capacity, gain, run.bucket, at) {
      forall i: nat | i < |times| ensures Granted(run.granted, i) as real + 1.0 <= capacity + gain(times[i], at) {
        assert level <= Room(capacity, gain, times, run.granted, i, at);
      }
    }
  }

  // Any window of requests, from i to the last, holds at most capacity plus refill grants.
  lemma WindowBound(capacity: real, gain: Gain, times: seq<real>, i: nat)
    requires capacity >= 0.0 && Steady(gain) && Ordered(times) && i < |times|
    ensures Granted(KeyRun(capacity, gain, times).granted, i) as real <= capacity + gain(times[i], times[|times| - 1])
  {
    var n := |times| - 1;
    var front, last := times[..n], times[n];
    assert times == front + [last];
    AdmittedExactlyWhen(capacity, gain, front, last);
    LevelIsLeastRoom(capacity, gain, front, last);
    NonNegative(capacity, gain, front);
    var before := KeyRun(capacity, gain, front);
    GrantedSnoc(before.granted, Grants(capacity, gain, before.bucket, last), i);
    assert gain(last, last) + gain(last, last) == gain(last, last);
    if i < n {
      assert Level(capacity, gain, before.bucket, last) <= Room(capacity, gain, front, before.granted, i, last);
      assert gain(times[i], last) >= 0.0;
      LevelNonNegative(capacity, gain, before.bucket, last);
    }
  }

  ghost predicate Held(capacity: real, bucket: Option<Bucket>) {
    bucket.Some? ==> 0.0 <= bucket.value.tokens <= capacity
  }

  lemma LevelNonNegative(capacity: real, gain: Gain, bucket: Option<Bucket>, at: real)
    requires capacity >= 0.0 && Steady(gain) && Held(capacity, bucket)
    ensures 0.0 <= Level(capacity, gain, bucket, at) <= capacity
    ensures Held(capacity, Some(Spend(capacity, gain, bucket, at)))
  {
  }

  lemma {:induction false} NonNegative(capacity: real, gain: Gain, times: seq<real>)
    requires capacity >= 0.0 && Steady(gain)
    ensures Held(capacity, KeyRun(capacity, gain, times).bucket)
  {
    if |times| > 0 {
      var n := |times| - 1;
      NonNegative(capacity, gain, times[..n]);
      LevelNonNegative(capacity, gain, KeyRun(capacity, gain, times[..n]).bucket, times[n]);
    }
  }

  // ---------------------------------------------------------------- when to come back

  // Whole milliseconds later, with no request in between, the caller is admitted exactly from retryAfterMs on.
  lemma RetryAfterIsExact(config: Config, bucket: Option<Bucket>, at: real, later: nat)
    requires config.Positive() && config.capacity >= 1.0
    requires !Reply(config, bucket, at).allowed
    ensures Reply(config, Some(Spend(config.capacity, GainOf(config), bucket, at)), at + later as real).allowed
        <==> later >= Reply(config, bucket, at).retryAfterMs
  {
    var rate := config.RefillPerMs();
    var tokens := Level(config.capacity, GainOf(config), bucket, at);
    WaitIsExact(config, tokens, rate, later);
  }

  lemma WaitIsExact(config: Config, tokens: real, rate: real, later: nat)
    requires config.Positive() && rate == config.RefillPerMs() && tokens < 1.0
    ensures tokens + later as real * rate >= 1.0 <==> later >= Wait(tokens, config)
  {
    var need := (1.0 - tokens) / rate;
    assert need * rate == 1.0 - tokens;
    if later as real >= need {
      assert (later as real - need) * rate >= 0.0;
    } else {
      assert (need - later as real) * rate > 0.0;
    }
    CeilIsLeast(need, later);
  }

  lemma CeilIsLeast(x: real, n: int)
    ensures n >= Ceil(x) <==> n as real >= x
  {
  }

  // A capacity below one token admits nothing, ever; a caller that waits for a token would wait for ever.
  lemma BelowOneAdmitsNothing(capacity: real, gain: Gain, times: seq<real>, at: real)
    requires Steady(gain) && Ordered(times + [at]) && capacity < 1.0
    ensures !Grants(capacity, gain, KeyRun(capacity, gain, times).bucket, at)
  {
    AdmittedExactlyWhen(capacity, gain, times, at);
  }

  // The collector's bucket is that of one caller: as long as the clock does not step back, an attempt
  // grants and spends alike, and a new bucket is as good as none.
  lemma CollectorSpends(capacity: real, gain: Gain, b: Bucket, at: real)
    requires capacity >= 0.0 && Steady(gain) && Held(capacity, Some(b)) && b.updatedAt <= at
    ensures var r := Refilled(capacity, gain, b, at);
            && (r.tokens >= 1.0 <==> Grants(capacity, gain, Some(b), at))
            && (if r.tokens >= 1.0 then Taken(r) else r) == Spend(capacity, gain, Some(b), at)
            && (b.tokens == capacity ==> Spend(capacity, gain, Some(b), at) == Spend(capacity, gain, None, at))
  {
    assert gain(b.updatedAt, at) >= 0.0;
  }

  // What the collector's limiter sees: tries for a token, and looks that only refill.
  datatype Visit = Tries(at: real) | Looks(at: real)

  datatype CollectorState = CollectorState(bucket: Bucket, granted: seq<bool>)

  function CollectorVisit(capacity: real, gain: Gain, s: CollectorState, visit: Visit): CollectorState {
    var b := Refilled(capacity, gain, s.bucket, visit.at);
    if visit.Looks? then CollectorState(b, s.granted)
    else CollectorState(if b.tokens >= 1.0 then Taken(b) else b, s.granted + [b.tokens >= 1.0])
  }

  function CollectorRun(capacity: real, gain: Gain, start: Bucket, visits: seq<Visit>): CollectorState {
    if |visits| == 0 then CollectorState(start, [])
    else CollectorVisit(capacity, gain, CollectorRun(capacity, gain, start, visits[..|visits| - 1]), visits[|visits| - 1])
  }

  function TryTimes(visits: seq<Visit>): seq<real> {
    if |visits| == 0 then []
    else TryTimes(visits[..|visits| - 1]) + if visits[|visits| - 1].Tries? then [visits[|visits| - 1].at] else []
  }

  // From now on the bucket has the level of the other.
  ghost predicate SameLevels(capacity: real, gain: Gain, b: Bucket, alone: Option<Bucket>, now: real) {
    && Held(capacity, Some(b)) && Held(capacity, alone) && b.updatedAt <= now
    && (alone.Some? ==> alone.value.updatedAt <= now)
    && forall at :: at >= now ==> Level(capacity, gain, Some(b), at) == Level(capacity, gain, alone, at)
  }

  lemma LookKeepsLevels(capacity: real, gain: Gain, b: Bucket, alone: Option<Bucket>, now: real, at: real)
    requires capacity >= 0.0 && Steady(gain) && SameLevels(capacity, gain, b, alone, now) && now <= at
    ensures SameLevels(capacity, gain, Refilled(capacity, gain, b, at), alone, at)
  {
    var r := Refilled(capacity, gain, b, at);
    assert gain(b.updatedAt, at) >= 0.0;
    forall later | later >= at ensures Level(capacity, gain, Some(r), later) == Level(capacity, gain, Some(b), later) {
      assert gain(b.updatedAt, at) + gain(at, later) == gain(b.updatedAt, later);
      assert gain(at, later) >= 0.0;
    }
  }

  lemma TryKeepsLevels(capacity: real, gain: Gain, b: Bucket, alone: Option<Bucket>, now: real, at: real)
    requires capacity >= 0.0 && Steady(gain) && SameLevels(capacity, gain, b, alone, now) && now <= at
    ensures var r := Refilled(capacity, gain, b, at);
            && (r.tokens >= 1.0 <==> Grants(capacity, gain, alone, at))
            && (if r.tokens >= 1.0 then Taken(r) else r) == Spend(capacity, gain, alone, at)
            && SameLevels(capacity, gain, if r.tokens >= 1.0 then Taken(r) else r, Some(Spend(capacity, gain, alone, at)), at)
  {
    CollectorSpends(capacity, gain, b, at);
    LevelNonNegative(capacity, gain, alone, at);
    assert Level(capacity, gain, Some(b), at) == Level(capacity, gain, alone, at);
  }

  ghost predicate InTime(start: real, visits: seq<Visit>) {
    && (forall i, j :: 0 <= i < j < |visits| ==> visits[i].at <= visits[j].at)
    && (forall i :: 0 <= i < |visits| ==> start <= visits[i].at)
  }

  // The bucket has granted as the caller alone, and is level with its bucket.
  ghost predicate Matches(capacity: real, gain: Gain, s: CollectorState, alone: Track, now: real) {
    s.granted == alone.granted && SameLevels(capacity, gain, s.bucket, alone.bucket, now)
  }

  function KeyStep(capacity: real, gain: Gain, alone: Track, visit: Visit): Track {
    if visit.Looks? then alone
    else Track(Some(Spend(capacity, gain, alone.bucket, visit.at)),
               alone.granted + [Grants(capacity, gain, alone.bucket, visit.at)])
  }

  lemma VisitMatches(capacity: real, gain: Gain, s: CollectorState, alone: Track, visit: Visit, now: real)
    requires capacity >= 0.0 && Steady(gain) && Matches(capacity, gain, s, alone, now) && now <= visit.at
    ensures Matches(capacity, gain, CollectorVisit(capacity, gain, s, visit), KeyStep(capacity, gain, alone, visit), visit.at)
  {
    if visit.Looks? {
      LookKeepsLevels(capacity, gain, s.bucket, alone.bucket, now, visit.at);
    } else {
      TryKeepsLevels(capacity, gain, s.bucket, alone.bucket, now, visit.at);
    }
  }

  lemma KeyRunVisit(capacity: real, gain: Gain, visits: seq<Visit>)
    requires |visits| > 0
    ensures KeyRun(capacity, gain, TryTimes(visits))
         == KeyStep(capacity, gain, KeyRun(capacity, gain, TryTimes(visits[..|visits| - 1])), visits[|visits| - 1])
  {
    var times, last := TryTimes(visits[..|visits| - 1]), visits[|visits| - 1];
    if last.Looks? {
      assert times + [] == times;
    } else {
      assert (times + [last.at])[..|times|] == times;
    }
  }

  lemma StartMatches(capacity: real, gain: Gain, start: real)
    requires capacity >= 0.0 && Steady(gain)
    ensures Matches(capacity, gain, CollectorState(Bucket(capacity, start), []), Track(None, []), start)
  {
    forall at | at >= start ensures Level(capacity, gain, Some(Bucket(capacity, start)), at) == capacity {
      assert gain(start, at) >= 0.0;
    }
  }

  lemma RunVisitMatches(capacity: real, gain: Gain, start: Bucket, visits: seq<Visit>, before: real)
    requires capacity >= 0.0 && Steady(gain) && |visits| > 0 && before <= visits[|visits| - 1].at
    requires Matches(capacity, gain, CollectorRun(capacity, gain, start, visits[..|visits| - 1]),
                     KeyRun(capacity, gain, TryTimes(visits[..|visits| - 1])), before)
    ensures Matches(capacity, gain, CollectorRun(capacity, gain, start, visits),
                    KeyRun(capacity, gain, TryTimes(visits)), visits[|visits| - 1].at)
  {
    var front, last := visits[..|visits| - 1], visits[|visits| - 1];
    VisitMatches(capacity, gain, CollectorRun(capacity, gain, start, front), KeyRun(capacity, gain, TryTimes(front)), last, before);
    KeyRunVisit(capacity, gain, visits);
  }

  function LastAt(start: real, visits: seq<Visit>): real {
    if |visits| == 0 then start else visits[|visits| - 1].at
  }

  lemma InTimeFront(start: real, visits: seq<Visit>)
    requires |visits| > 0 && InTime(start, visits)
    ensures InTime(start, visits[..|visits| - 1])
    ensures LastAt(start, visits[..|visits| - 1]) <= visits[|visits| - 1].at == LastAt(start, visits)
  {
  }

  // Over any run of tries and looks, a new collector's bucket grants its tries as that of one API caller does.
  lemma {:induction false} CollectorRunIsKeyRun(capacity: real, gain: Gain, start: real, visits: seq<Visit>)
    requires capacity >= 0.0 && Steady(gain) && InTime(start, visits)
    ensures Matches(capacity, gain, CollectorRun(capacity, gain, Bucket(capacity, start), visits),
                    KeyRun(capacity, gain, TryTimes(visits)), LastAt(start, visits))
    decreases |visits|
  {
    if |visits| == 0 {
      StartMatches(capacity, gain, start);
    } else {
      var front := visits[..|visits| - 1];
      InTimeFront(start, visits);
      CollectorRunIsKeyRun(capacity, gain, start, front);
      RunVisitMatches(capacity, gain, Bucket(capacity, start), visits, LastAt(start, front));
    }
  }

  lemma {:induction false} TriesOrdered(start: real, visits: seq<Visit>, last: real)
    requires InTime(start, visits) && forall i :: 0 <= i < |visits| ==> visits[i].at <= last
    ensures Ordered(TryTimes(visits) + [last])
    decreases |visits|
  {
    if |visits| > 0 {
      var n := |visits| - 1;
      TriesOrdered(start, visits[..n], visits[n].at);
      TriesOrdered(start, visits[..n], last);
      var times := TryTimes(visits[..n]);
      assert forall i :: 0 <= i < |times| ==> (times + [visits[n].at])[i] == times[i];
      assert (times + [visits[n].at])[|times|] == visits[n].at;
    }
  }

  lemma SameGrants(capacity: real, gain: Gain, start: real, visits: seq<Visit>)
    requires capacity >= 0.0 && Steady(gain) && InTime(start, visits)
    ensures CollectorRun(capacity, gain, Bucket(capacity, start), visits).granted
         == KeyRun(capacity, gain, TryTimes(visits)).granted
  {
    CollectorRunIsKeyRun(capacity, gain, start, visits);
  }

  lemma OrderedTries(start: real, visits: seq<Visit>)
    requires InTime(start, visits)
    ensures Ordered(TryTimes(visits))
  {
    var times, last := TryTimes(visits), LastAt(start, visits);
    TriesOrdered(start, visits, last);
    assert forall k :: 0 <= k < |times| ==> (times + [last])[k] == times[k];
  }

  // However many callers wait at once, any window of the collector's tries is granted at most capacity plus
  // refill.
  lemma CollectorWindowBound(capacity: real, gain: Gain, start: real, visits: seq<Visit>, i: nat)
    requires capacity >= 0.0 && Steady(gain) && InTime(start, visits) && i < |TryTimes(visits)|
    ensures var times := TryTimes(visits);
            Granted(CollectorRun(capacity, gain, Bucket(capacity, start), visits).granted, i) as real
              <= capacity + gain(times[i], times[|times| - 1])
  {
    SameGrants(capacity, gain, start, visits);
    OrderedTries(start, visits);
    WindowBound(capacity, gain, TryTimes(visits), i);
  }

  // ---------------------------------------------------------------- many callers, pruned

  datatype Request = Request(key: string, at: real)

  type Consumer = (State, Request) -> State

  function RunWith(consume: Consumer, requests: seq<Request>): State {
    if |requests| == 0 then State(map[], 0)
    else consume(RunWith(consume, requests[..|requests| - 1]), requests[|requests| - 1])
  }

  function RunAll(config: Config, requests: seq<Request>): State
    requires config.Positive()
  {
    RunWith((s: State, q: Request) => Consumed(config, s, q.key, q.at), requests)
  }

  function TimesOf(requests: seq<Request>, key: string): seq<real> {
    if |requests| == 0 then []
    else
      var n := |requests| - 1;
      TimesOf(requests[..n], key) + if requests[n].key == key then [requests[n].at] else []
  }

  // The clock never reads more than d below an earlier reading.
  ghost predicate Wavers(requests: seq<Request>, d: real) {
    forall i, j :: 0 <= i < j < |requests| ==> requests[i].at - requests[j].at <= d
  }

  ghost predicate Chronological(requests: seq<Request>) {
    forall i, j :: 0 <= i < j < |requests| ==> requests[i].at <= requests[j].at
  }

  // A missing bucket stands for one that is full from now on.
  ghost predicate StandsFor(capacity: real, gain: Gain, bucket: Option<Bucket>, alone: Option<Bucket>, now: real) {
    && Held(capacity, alone)
    && (bucket == alone
        || (bucket.None? && alone.value.updatedAt <= now && alone.value.tokens + gain(alone.value.updatedAt, now) >= capacity))
  }

  // Standing for lasts: whatever time it is later, the level is the same.
  lemma StandsLater(capacity: real, gain: Gain, bucket: Option<Bucket>, alone: Option<Bucket>, now: real, at: real)
    requires Steady(gain) && StandsFor(capacity, gain, bucket, alone, now) && now <= at
    ensures StandsFor(capacity, gain, bucket, alone, at)
    ensures Level(capacity, gain, bucket, at) == Level(capacity, gain, alone, at)
  {
    if bucket != alone {
      var u := alone.value.updatedAt;
      assert gain(u, now) + gain(now, at) == gain(u, at);
      assert gain(u, u) + gain(u, u) == gain(u, u);
    }
  }

  // Even d before it is pruned a bucket is full: no refill takes longer than pruning waits, less d.
  ghost predicate PrunesOnlyFull(config: Config, d: real) {
    (config.pruneAfterMs - d) * config.RefillPerMs() >= config.capacity
  }

  lemma PrunedIsFull(config: Config, d: real, b: Bucket, at: real)
    requires config.Positive() && PrunesOnlyFull(config, d) && b.tokens >= 0.0 && Untouched(config, b, at)
    ensures b.updatedAt <= at - d && b.tokens + GainOf(config)(b.updatedAt, at - d) >= config.capacity
  {
    var rate := config.RefillPerMs();
    var since, wait := at - d - b.updatedAt, config.pruneAfterMs - d;
    SmallerFactor(0.0, wait, rate);
    LargerFactor(since, wait, rate);
    assert GainOf(config)(b.updatedAt, at - d) == since * rate;
  }

  lemma SpendStands(capacity: real, gain: Gain, buckets: Buckets, alone: Option<Bucket>, key: string, spent: string, now: real,
      at: real)
    requires capacity >= 0.0 && Steady(gain) && now <= at
    requires StandsFor(capacity, gain, Get(buckets, key), alone, now)
    ensures var after := buckets[spent := Spend(capacity, gain, Get(buckets, spent), at)];
            StandsFor(capacity, gain, Get(after, key), if key == spent then Some(Spend(capacity, gain, alone, at)) else alone, now)
  {
    StandsLater(capacity, gain, Get(buckets, key), alone, now, at);
    LevelNonNegative(capacity, gain, alone, at);
  }

  lemma PruneStands(config: Config, d: real, buckets: Buckets, alone: Option<Bucket>, key: string, at: real, now: real)
    requires config.Positive() && PrunesOnlyFull(config, d) && Steady(GainOf(config)) && at - d <= now
    requires StandsFor(config.capacity, GainOf(config), Get(buckets, key), alone, now)
    ensures StandsFor(config.capacity, GainOf(config), Get(Pruned(config, buckets, at), key), alone, now)
  {
    if key in buckets && Untouched(config, buckets[key], at) {
      PrunedIsFull(config, d, buckets[key], at);
      StandsLater(config.capacity, GainOf(config), None, alone, at - d, now);
    }
  }

  function AloneAfter(capacity: real, gain: Gain, alone: Option<Bucket>, q: Request, key: string): Option<Bucket> {
    if key == q.key then Some(Spend(capacity, gain, alone, q.at)) else alone
  }

  function Later(a: real, b: real): real {
    if a < b then b else a
  }

  lemma ConsumedAlike(config: Config, d: real, s: State, alone: Option<Bucket>, q: Request, key: string, now: real)
    requires config.Positive() && PrunesOnlyFull(config, d) && Steady(GainOf(config)) && now <= q.at
    requires StandsFor(config.capacity, GainOf(config), Get(s.buckets, key), alone, now)
    ensures StandsFor(config.capacity, GainOf(config), Get(Consumed(config, s, q.key, q.at).buckets, key),
                      AloneAfter(config.capacity, GainOf(config), alone, q, key), Later(now, q.at - d))
  {
    var after := s.buckets[q.key := Spend(config.capacity, GainOf(config), Get(s.buckets, q.key), q.at)];
    var own := AloneAfter(config.capacity, GainOf(config), alone, q, key);
    SpendStands(config.capacity, GainOf(config), s.buckets, alone, key, q.key, now, q.at);
    StandsLater(config.capacity, GainOf(config), Get(after, key), own, now, Later(now, q.at - d));
    PruneStands(config, d, after, own, key, q.at, Later(now, q.at - d));
  }

  // Consuming a request moves the bucket of a key as if it were alone.
  ghost predicate Moves(consume: Consumer, capacity: real, gain: Gain, d: real, key: string, s: State, alone: Option<Bucket>,
      q: Request, now: real)
  {
    now <= q.at && StandsFor(capacity, gain, Get(s.buckets, key), alone, now) ==>
      StandsFor(capacity, gain, Get(consume(s, q).buckets, key), AloneAfter(capacity, gain, alone, q, key), Later(now, q.at - d))
  }

  ghost predicate Keeps(consume: Consumer, capacity: real, gain: Gain, d: real, key: string) {
    forall s, alone, q, now :: Moves(consume, capacity, gain, d, key, s, alone, q, now)
  }

  function Alone(capacity: real, gain: Gain, requests: seq<Request>, key: string): Option<Bucket> {
    KeyRun(capacity, gain, TimesOf(requests, key)).bucket
  }

  lemma AloneSnoc(capacity: real, gain: Gain, requests: seq<Request>, key: string)
    requires |requests| > 0
    ensures Alone(capacity, gain, requests, key)
         == AloneAfter(capacity, gain, Alone(capacity, gain, requests[..|requests| - 1], key), requests[|requests| - 1], key)
  {
    var times, at := TimesOf(requests[..|requests| - 1], key), requests[|requests| - 1].at;
    assert (times + [at])[..|times|] == times;
    assert times + [] == times;
  }

  // The latest reading of the clock, and at least `from`.
  function Latest(requests: seq<Request>, from: real): real {
    if |requests| == 0 then from
    else Later(Latest(requests[..|requests| - 1], from), requests[|requests| - 1].at)
  }

  // No reading so far is more than d above a later one.
  lemma {:induction false} LatestBefore(requests: seq<Request>, from: real, d: real, at: real)
    requires forall i :: 0 <= i < |requests| ==> requests[i].at - at <= d
    requires from - at <= d
    ensures Latest(requests, from) - at <= d
  {
    if |requests| > 0 {
      LatestBefore(requests[..|requests| - 1], from, d, at);
    }
  }

  // No reading is more than d below `from` or an earlier one.
  ghost predicate WaversFrom(requests: seq<Request>, from: real, d: real) {
    Wavers(requests, d) && forall i :: 0 <= i < |requests| ==> from - requests[i].at <= d
  }

  lemma FrontWavers(requests: seq<Request>, from: real, d: real)
    requires |requests| > 0 && WaversFrom(requests, from, d)
    ensures WaversFrom(requests[..|requests| - 1], from, d)
    ensures Latest(requests[..|requests| - 1], from) - d <= requests[|requests| - 1].at
  {
    LatestBefore(requests[..|requests| - 1], from, d, requests[|requests| - 1].at);
  }

  // At any point of a run, the limiter's bucket of a caller stands for that of the caller alone.
  lemma {:induction false} RunStands(consume: Consumer, capacity: real, gain: Gain, d: real, requests: seq<Request>, key: string,
      from: real)
    requires capacity >= 0.0 && Keeps(consume, capacity, gain, d, key) && WaversFrom(requests, from, d)
    ensures StandsFor(capacity, gain, Get(RunWith(consume, requests).buckets, key), Alone(capacity, gain, requests, key),
                      Latest(requests, from) - d)
    decreases |requests|
  {
    if |requests| > 0 {
      var n := |requests| - 1;
      var front, q := requests[..n], requests[n];
      FrontWavers(requests, from, d);
      RunStands(consume, capacity, gain, d, front, key, from);
      AloneSnoc(capacity, gain, requests, key);
      assert Moves(consume, capacity, gain, d, key, RunWith(consume, front), Alone(capacity, gain, front, key), q,
                   Latest(front, from) - d);
    }
  }

  lemma LimiterStands(config: Config, d: real, requests: seq<Request>, key: string, from: real)
    requires config.Positive() && PrunesOnlyFull(config, d) && WaversFrom(requests, from, d)
    ensures StandsFor(config.capacity, GainOf(config), Get(RunAll(config, requests).buckets, key),
                      Alone(config.capacity, GainOf(config), requests, key), Latest(requests, from) - d)
  {
    GainIsSteady(config);
    var consume: Consumer := (s: State, q: Request) => Consumed(config, s, q.key, q.at);
    forall s, alone, q, now ensures Moves(consume, config.capacity, GainOf(config), d, key, s, alone, q, now) {
      if now <= q.at && StandsFor(config.capacity, GainOf(config), Get(s.buckets, key), alone, now) {
        ConsumedAlike(config, d, s, alone, q, key, now);
      }
    }
    RunStands(consume, config.capacity, GainOf(config), d, requests, key, from);
  }

  lemma WaversSnoc(requests: seq<Request>, q: Request, d: real, from: real)
    requires d >= 0.0 && Wavers(requests + [q], d) && from == (requests + [q])[0].at
    ensures WaversFrom(requests, from, d) && Latest(requests, from) - d <= q.at
  {
    var all := requests + [q];
    assert forall i :: 0 <= i < |requests| ==> all[i] == requests[i];
    assert all[|requests|] == q;
    LatestBefore(requests, from, d, q.at);
  }

  // Whatever other callers do and whenever the limiter prunes, each request is answered as if its caller
  // were alone and never pruned, as long as the clock never drops by more than d.
  lemma AnsweredAlone(config: Config, d: real, requests: seq<Request>, q: Request)
    requires config.Positive() && d >= 0.0 && PrunesOnlyFull(config, d) && Wavers(requests + [q], d)
    ensures Reply(config, Get(RunAll(config, requests).buckets, q.key), q.at)
         == Reply(config, KeyRun(config.capacity, GainOf(config), TimesOf(requests, q.key)).bucket, q.at)
  {
    GainIsSteady(config);
    var from := (requests + [q])[0].at;
    WaversSnoc(requests, q, d, from);
    LimiterStands(config, d, requests, q.key, from);
    StandsLater(config.capacity, GainOf(config), Get(RunAll(config, requests).buckets, q.key),
                KeyRun(config.capacity, GainOf(config), TimesOf(requests, q.key)).bucket, Latest(requests, from) - d, q.at);
  }

  lemma {:induction false} TimesOrdered(requests: seq<Request>, key: string, last: real)
    requires Chronological(requests) && forall i :: 0 <= i < |requests| ==> requests[i].at <= last
    ensures Ordered(TimesOf(requests, key) + [last])
    decreases |requests|
  {
    if |requests| > 0 {
      var n := |requests| - 1;
      TimesOrdered(requests[..n], key, requests[n].at);
      TimesOrdered(requests[..n], key, last);
      var times := TimesOf(requests[..n], key);
      assert forall i :: 0 <= i < |times| ==> (times + [requests[n].at])[i] == times[i];
      assert (times + [requests[n].at])[|times|] == requests[n].at;
    }
  }

  // The limiter over any chronological run admits a request exactly when every window of its caller's
  // requests that ends with it stays within capacity and refill.
  lemma LimiterAdmitsExactlyWhen(config: Config, requests: seq<Request>, q: Request)
    requires config.Positive() && PrunesOnlyFull(config, 0.0) && Chronological(requests + [q])
    ensures var (gain, times) := (GainOf(config), TimesOf(requests, q.key));
            && (Reply(config, Get(RunAll(config, requests).buckets, q.key), q.at).allowed
                <==> Conforms(config.capacity, gain, times, KeyRun(config.capacity, gain, times).granted, q.at))
  {
    var n := |requests|;
    assert forall i :: 0 <= i < n ==> (requests + [q])[i] == requests[i];
    assert (requests + [q])[n] == q;
    AnsweredAlone(config, 0.0, requests, q);
    GainIsSteady(config);
    TimesOrdered(requests, q.key, q.at);
    AdmittedExactlyWhen(config.capacity, GainOf(config), TimesOf(requests, q.key), q.at);
  }

  // ---------------------------------------------------------------- when pruning shows

  ghost predicate Forgettable(config: Config, b: Bucket, at: real) {
    forall later :: later >= at ==>
      Level(config.capacity, GainOf(config), Some(b), later) == Level(config.capacity, GainOf(config), None, later)
  }

  // Forgetting a bucket at a time is invisible ever after exactly when the bucket is full by then.
  lemma ForgettingIsInvisibleWhen(config: Config, b: Bucket, at: real)
    requires config.Positive() && Held(config.capacity, Some(b)) && b.updatedAt < at
    ensures Forgettable(config, b, at) <==> b.tokens + GainOf(config)(b.updatedAt, at) >= config.capacity
  {
    var gain := GainOf(config);
    GainIsSteady(config);
    if b.tokens + gain(b.updatedAt, at) >= config.capacity {
      forall later | later >= at
        ensures Level(config.capacity, gain, Some(b), later) == Level(config.capacity, gain, None, later)
      {
        StandsLater(config.capacity, gain, None, Some(b), at, later);
      }
    } else {
      assert Level(config.capacity, gain, Some(b), at) != Level(config.capacity, gain, None, at);
    }
  }

  lemma LargerFactor(a: real, b: real, rate: real)
    requires rate > 0.0 && a >= b
    ensures a * rate >= b * rate
  {
    assert (a - b) * rate >= 0.0;
  }

  lemma SmallerFactor(a: real, b: real, rate: real)
    requires rate > 0.0 && a * rate < b * rate
    ensures a < b
  {
    if a >= b {
      LargerFactor(a, b, rate);
    }
  }

  // ---------------------------------------------------------------- a run that pruning shows in

  lemma RunSnoc(config: Config, requests: seq<Request>, q: Request)
    requires config.Positive()
    ensures RunAll(config, requests + [q]) == Consumed(config, RunAll(config, requests), q.key, q.at)
  {
    assert (requests + [q])[..|requests|] == requests;
  }

  // A consult leaves its own bucket, which no pruning at that time takes.
  lemma OwnBucket(config: Config, s: State, key: string, at: real)
    requires config.Positive() && config.pruneAfterMs >= 0.0
    ensures Get(Consumed(config, s, key, at).buckets, key)
         == Some(Spend(config.capacity, GainOf(config), Get(s.buckets, key), at))
  {
  }

  // It leaves another bucket alone, unless it prunes and that one is long untouched.
  lemma OtherBucket(config: Config, s: State, key: string, at: real, other: string, b: Bucket)
    requires config.Positive() && other != key && Get(s.buckets, other) == Some(b)
    ensures Get(Consumed(config, s, key, at).buckets, other)
         == if (s.consultCount + 1) % PRUNE_EVERY == 0 && Untouched(config, b, at) then None else Some(b)
  {
  }

  lemma SpendOne(capacity: real, gain: Gain, bucket: Option<Bucket>, at: real, level: real)
    requires level >= 1.0 && Level(capacity, gain, bucket, at) == level
    ensures Spend(capacity, gain, bucket, at) == Bucket(level - 1.0, at)
  {
  }

  // The first k requests of a caller, all at once.
  function Burst(key: string, k: nat): seq<Request> {
    seq(k, _ => Request(key, 0.0))
  }

  ghost predicate Reaches(config: Config, requests: seq<Request>, key: string, b: Bucket)
    requires config.Positive()
  {
    && RunAll(config, requests).consultCount == |requests|
    && Get(RunAll(config, requests).buckets, key) == Some(b)
    && Alone(config.capacity, GainOf(config), requests, key) == Some(b)
  }

  // One more request of the caller, answered the same alone.
  lemma ReachesOwn(config: Config, requests: seq<Request>, key: string, b: Option<Bucket>, at: real, level: real)
    requires config.Positive() && config.pruneAfterMs >= 0.0 && level >= 1.0
    requires RunAll(config, requests).consultCount == |requests| && Get(RunAll(config, requests).buckets, key) == b
    requires Alone(config.capacity, GainOf(config), requests, key) == b
    requires Level(config.capacity, GainOf(config), b, at) == level
    ensures Reaches(config, requests + [Request(key, at)], key, Bucket(level - 1.0, at))
  {
    var more := requests + [Request(key, at)];
    RunSnoc(config, requests, Request(key, at));
    OwnBucket(config, RunAll(config, requests), key, at);
    AloneSnoc(config.capacity, GainOf(config), more, key);
    assert more[..|more| - 1] == requests;
    SpendOne(config.capacity, GainOf(config), b, at, level);
  }

  // One more request of another caller, while no pruning is due.
  lemma ReachesOther(config: Config, requests: seq<Request>, key: string, b: Bucket, q: Request)
    requires config.Positive() && Reaches(config, requests, key, b) && q.key != key
    requires (|requests| + 1) % PRUNE_EVERY != 0
    ensures Reaches(config, requests + [q], key, b)
  {
    var more := requests + [q];
    RunSnoc(config, requests, q);
    OtherBucket(config, RunAll(config, requests), q.key, q.at, key, b);
    AloneSnoc(config.capacity, GainOf(config), more, key);
    assert more[..|more| - 1] == requests;
  }

  lemma {:induction false} BurstReaches(config: Config, key: string, k: nat)
    requires config.Positive() && config.pruneAfterMs >= 0.0 && 0 < k && k as real <= config.capacity
    ensures Reaches(config, Burst(key, k), key, Bucket(config.capacity - k as real, 0.0))
  {
    var front := Burst(key, k - 1);
    assert Burst(key, k) == front + [Request(key, 0.0)];
    if k == 1 {
      assert front == [];
      ReachesOwn(config, front, key, None, 0.0, config.capacity);
    } else {
      BurstReaches(config, key, k - 1);
      ReachesOwn(config, front, key, Some(Bucket(config.capacity - (k - 1) as real, 0.0)), 0.0, config.capacity - (k - 1) as real);
    }
  }

  // As many requests as the capacity holds, and one more when the next token has come, empty the bucket.
  lemma Emptied(config: Config, key: string) returns (requests: seq<Request>, u: real)
    requires config.Positive() && config.pruneAfterMs >= 0.0 && config.capacity >= 1.0
    ensures Reaches(config, requests, key, Bucket(0.0, u)) && Chronological(requests)
    ensures forall i :: 0 <= i < |requests| ==> requests[i].at <= u
  {
    var k := config.capacity.Floor;
    var rest := config.capacity - k as real;
    var rate := config.RefillPerMs();
    u := (1.0 - rest) / rate;
    assert u * rate == 1.0 - rest;
    assert u > 0.0;
    BurstReaches(config, key, k);
    requests := Burst(key, k) + [Request(key, u)];
    assert GainOf(config)(0.0, u) == 1.0 - rest;
    ReachesOwn(config, Burst(key, k), key, Some(Bucket(rest, 0.0)), u, 1.0);
  }

  // Requests of another caller at one time.
  function Others(other: string, at: real, m: nat): seq<Request> {
    seq(m, _ => Request(other, at))
  }

  lemma {:induction false} OthersReach(config: Config, requests: seq<Request>, key: string, b: Bucket, other: string, at: real,
      m: nat)
    requires config.Positive() && Reaches(config, requests, key, b) && other != key
    requires forall j :: |requests| < j <= |requests| + m ==> j % PRUNE_EVERY != 0
    ensures Reaches(config, requests + Others(other, at, m), key, b)
  {
    if m == 0 {
      assert requests + Others(other, at, 0) == requests;
    } else {
      OthersReach(config, requests, key, b, other, at, m - 1);
      ReachesOther(config, requests + Others(other, at, m - 1), key, b, Request(other, at));
      assert requests + Others(other, at, m) == requests + Others(other, at, m - 1) + [Request(other, at)];
    }
  }

  // How many more consults until the next pruning.
  function UntilPruning(count: nat): (m: nat)
    ensures m > 0 && (count + m) % PRUNE_EVERY == 0
    ensures forall j :: count < j < count + m ==> j % PRUNE_EVERY != 0
  {
    PRUNE_EVERY - count % PRUNE_EVERY
  }

  ghost predicate AnswersAlike(config: Config, requests: seq<Request>, q: Request)
    requires config.Positive()
  {
    Reply(config, Get(RunAll(config, requests).buckets, q.key), q.at)
      == Reply(config, Alone(config.capacity, GainOf(config), requests, q.key), q.at)
  }

  lemma ForgottenAnswers(config: Config, b: Bucket, at: real)
    requires config.Positive() && config.capacity >= 1.0 && b.tokens == 0.0
    requires GainOf(config)(b.updatedAt, at) < config.capacity
    ensures Reply(config, None, at) != Reply(config, Some(b), at)
  {
  }

  // A time by which an emptied bucket is pruned and, d before it, has not refilled.
  lemma TooEarly(config: Config, d: real, u: real) returns (at: real)
    requires config.Positive() && config.pruneAfterMs >= 0.0 && !PrunesOnlyFull(config, d)
    ensures at > u && Untouched(config, Bucket(0.0, u), at) && GainOf(config)(u, at - d) < config.capacity
  {
    var rate, wait := config.RefillPerMs(), config.pruneAfterMs;
    var full := config.capacity / rate;
    assert full * rate == config.capacity;
    SmallerFactor(wait - d, full, rate);
    var more := (full - (wait - d)) / 2.0;
    at := u + wait + more;
    assert (full - (wait - d + more)) * rate > 0.0;
    assert at - d - u == wait - d + more;
  }

  // A run of the limiter that empties a bucket, prunes it too early, and then answers its caller otherwise
  // than if it were alone.
  lemma PruningTooEarlyShows(config: Config, d: real) returns (requests: seq<Request>, q: Request)
    requires config.Positive() && config.capacity >= 1.0 && d >= 0.0 && !PrunesOnlyFull(config, d)
    ensures Wavers(requests + [q], d) && !AnswersAlike(config, requests, q)
  {
    if config.pruneAfterMs < 0.0 {
      requests, q := PruningAtOnceShows(config);
    } else {
      requests, q := PruningLaterShows(config, d);
    }
  }

  lemma PruningLaterShows(config: Config, d: real) returns (requests: seq<Request>, q: Request)
    requires config.Positive() && config.capacity >= 1.0 && d >= 0.0 && config.pruneAfterMs >= 0.0 && !PrunesOnlyFull(config, d)
    ensures Wavers(requests + [q], d) && !AnswersAlike(config, requests, q)
  {
    var first, u := Emptied(config, "a");
    var at := TooEarly(config, d, u);
    var m := UntilPruning(|first|);
    var before := first + Others("b", at, m - 1);
    OthersReach(config, first, "a", Bucket(0.0, u), "b", at, m - 1);
    requests, q := before + [Request("b", at)], Request("a", at - d);
    PrunedThere(config, before, Bucket(0.0, u), at, requests);
    ForgottenAnswers(config, Bucket(0.0, u), at - d);
    assert requests == first + Others("b", at, m);
    DropsAtTheEnd(first, u, "b", at, m, q, d);
  }

  lemma DropsAtTheEnd(first: seq<Request>, u: real, other: string, at: real, m: nat, q: Request, d: real)
    requires Chronological(first) && (forall i :: 0 <= i < |first| ==> first[i].at <= u) && u <= at
    requires d >= 0.0 && q.at == at - d
    ensures Wavers(first + Others(other, at, m) + [q], d)
  {
  }

  // With a negative delay even a bucket just touched is pruned.
  lemma PruningAtOnceShows(config: Config) returns (requests: seq<Request>, q: Request)
    requires config.Positive() && config.capacity >= 1.0 && config.pruneAfterMs < 0.0
    ensures Wavers(requests + [q], 0.0) && !AnswersAlike(config, requests, q)
  {
    requests, q := Burst("a", PRUNE_EVERY), Request("a", 0.0);
    var front := Burst("a", PRUNE_EVERY - 1);
    assert requests == front + [q];
    RunSnoc(config, front, q);
    Consults(config, front);
    BurstSpends(config, "a", PRUNE_EVERY);
    assert Get(RunAll(config, requests).buckets, "a") == None;
  }

  lemma {:induction false} Consults(config: Config, requests: seq<Request>)
    requires config.Positive()
    ensures RunAll(config, requests).consultCount == |requests|
  {
    if |requests| > 0 {
      var n := |requests| - 1;
      Consults(config, requests[..n]);
      RunSnoc(config, requests[..n], requests[n]);
      assert requests == requests[..n] + [requests[n]];
    }
  }

  // Whoever asked at this time has less than a full bucket at this time.
  lemma {:induction false} BurstSpends(config: Config, key: string, k: nat)
    requires config.Positive() && config.capacity >= 1.0 && k > 0
    ensures var b := Alone(config.capacity, GainOf(config), Burst(key, k), key);
            b.Some? && b.value.updatedAt == 0.0 && b.value.tokens <= config.capacity - 1.0
  {
    var front := Burst(key, k - 1);
    assert Burst(key, k)[..k - 1] == front;
    AloneSnoc(config.capacity, GainOf(config), Burst(key, k), key);
    if k > 1 {
      BurstSpends(config, key, k - 1);
    } else {
      assert front == [];
    }
  }

  // A bucket of less than one token is always full.
  ghost predicate Full(capacity: real, bucket: Option<Bucket>) {
    bucket.Some? ==> bucket.value.tokens == capacity
  }

  lemma {:induction false} AlwaysFull(config: Config, requests: seq<Request>, key: string)
    requires config.Positive() && config.capacity < 1.0
    ensures Full(config.capacity, Get(RunAll(config, requests).buckets, key))
    ensures Full(config.capacity, Alone(config.capacity, GainOf(config), requests, key))
  {
    if |requests| > 0 {
      var n := |requests| - 1;
      var front, q := requests[..n], requests[n];
      AlwaysFull(config, front, key);
      RunSnoc(config, front, q);
      assert requests == front + [q];
      AloneSnoc(config.capacity, GainOf(config), requests, key);
      FullSpends(config, Get(RunAll(config, front).buckets, key), q.at);
      FullSpends(config, Alone(config.capacity, GainOf(config), front, key), q.at);
    }
  }

  lemma FullLevel(config: Config, bucket: Option<Bucket>, at: real)
    requires config.Positive() && Full(config.capacity, bucket)
    ensures Level(config.capacity, GainOf(config), bucket, at) == config.capacity
  {
    GainIsSteady(config);
  }

  lemma FullSpends(config: Config, bucket: Option<Bucket>, at: real)
    requires config.Positive() && config.capacity < 1.0 && Full(config.capacity, bucket)
    ensures Spend(config.capacity, GainOf(config), bucket, at) == Bucket(config.capacity, at)
  {
    FullLevel(config, bucket, at);
  }

  lemma SmallAnswers(config: Config, requests: seq<Request>, q: Request)
    requires config.Positive() && config.capacity < 1.0
    ensures AnswersAlike(config, requests, q)
  {
    AlwaysFull(config, requests, q.key);
    FullLevel(config, Get(RunAll(config, requests).buckets, q.key), q.at);
    FullLevel(config, Alone(config.capacity, GainOf(config), requests, q.key), q.at);
  }

  lemma PrunedThere(config: Config, before: seq<Request>, b: Bucket, at: real, requests: seq<Request>)
    requires config.Positive() && Reaches(config, before, "a", b) && requests == before + [Request("b", at)]
    requires (|before| + 1) % PRUNE_EVERY == 0 && Untouched(config, b, at)
    ensures Get(RunAll(config, requests).buckets, "a") == None
    ensures Alone(config.capacity, GainOf(config), requests, "a") == Some(b)
  {
    RunSnoc(config, before, Request("b", at));
    OtherBucket(config, RunAll(config, before), "b", at, "a", b);
    AloneSnoc(config.capacity, GainOf(config), requests, "a");
    assert requests[..|requests| - 1] == before;
  }

  // Pruning never shows, in any run whose clock drops by at most d, if and only if it takes only buckets that
  // were full d before or there is never a token to give.
  lemma PruningNeverShowsExactlyWhen(config: Config, d: real)
    requires config.Positive() && d >= 0.0
    ensures (forall requests, q :: Wavers(requests + [q], d) ==> AnswersAlike(config, requests, q))
       <==> (PrunesOnlyFull(config, d) || config.capacity < 1.0)
  {
    if PrunesOnlyFull(config, d) {
      forall requests, q | Wavers(requests + [q], d) ensures AnswersAlike(config, requests, q) {
        AnsweredAlone(config, d, requests, q);
      }
    } else if config.capacity < 1.0 {
      forall requests, q | Wavers(requests + [q], d) ensures AnswersAlike(config, requests, q) {
        SmallAnswers(config, requests, q);
      }
    } else {
      var requests, q := PruningTooEarlyShows(config, d);
    }
  }

  // ---------------------------------------------------------------- a clock that steps back

  // The clock never reads more than d below an earlier reading.
  ghost predicate Drops(times: seq<real>, d: real) {
    forall i, j :: 0 <= i < j < |times| ==> times[i] - times[j] <= d
  }

  lemma KeySnoc(capacity: real, gain: Gain, times: seq<real>, at: real)
    ensures var before := KeyRun(capacity, gain, times);
            KeyRun(capacity, gain, times + [at])
              == Track(Some(Spend(capacity, gain, before.bucket, at)), before.granted + [Grants(capacity, gain, before.bucket, at)])
  {
    assert (times + [at])[..|times|] == times;
  }

  // What the clock went forward in all.
  function Forward(gain: Gain, times: seq<real>): real {
    if |times| <= 1 then 0.0
    else
      var n := |times| - 1;
      Forward(gain, times[..n]) + if times[n - 1] < times[n] then gain(times[n - 1], times[n]) else 0.0
  }

  // Whatever the clock does, what was granted is at most capacity and a refill for every step forward.
  lemma {:induction false} ForwardBound(capacity: real, gain: Gain, times: seq<real>)
    requires capacity >= 0.0 && Steady(gain) && |times| > 0
    ensures var run := KeyRun(capacity, gain, times);
            Granted(run.granted, 0) as real + run.bucket.value.tokens <= capacity + Forward(gain, times)
  {
    var n := |times| - 1;
    var front, last := times[..n], times[n];
    assert times == front + [last];
    KeySnoc(capacity, gain, front, last);
    var before := KeyRun(capacity, gain, front);
    GrantedSnoc(before.granted, Grants(capacity, gain, before.bucket, last), 0);
    if n > 0 {
      ForwardBound(capacity, gain, front);
      assert before.bucket.value.updatedAt == times[n - 1];
    } else {
      assert front == [];
    }
  }

  // The clock starts and ends at 0 and is never above it nor more than d below.
  ghost predicate Dips(times: seq<real>, d: real) {
    && |times| > 0 && times[0] == 0.0 == times[|times| - 1] && forall i :: 0 <= i < |times| ==> -d <= times[i] <= 0.0
  }

  lemma DipsOn(times: seq<real>, d: real)
    requires d >= 0.0 && Dips(times, d)
    ensures Dips(times + [-d] + [0.0], d) && Drops(times + [-d] + [0.0], d)
  {
  }

  // g requests were granted, and u tokens are left at time 0.
  ghost predicate Left(run: Track, g: nat, u: real) {
    run.bucket == Some(Bucket(u, 0.0)) && Granted(run.granted, 0) == g
  }

  function Zeroes(k: nat): seq<real> {
    seq(k, _ => 0.0)
  }

  lemma OneMore(capacity: real, gain: Gain, times: seq<real>, g: nat, level: real)
    requires level >= 1.0 && Level(capacity, gain, KeyRun(capacity, gain, times).bucket, 0.0) == level
    requires Granted(KeyRun(capacity, gain, times).granted, 0) == g
    ensures Left(KeyRun(capacity, gain, times + [0.0]), g + 1, level - 1.0)
  {
    KeySnoc(capacity, gain, times, 0.0);
    GrantedSnoc(KeyRun(capacity, gain, times).granted, true, 0);
  }

  // As many requests at once as the capacity holds.
  lemma {:induction false} AtOnce(capacity: real, gain: Gain, k: nat)
    requires 0 < k && k as real <= capacity
    ensures Left(KeyRun(capacity, gain, Zeroes(k)), k, capacity - k as real)
  {
    if k == 1 {
      OneMore(capacity, gain, [], 0, capacity);
      assert [] + [0.0] == Zeroes(1);
    } else {
      AtOnce(capacity, gain, k - 1);
      OneMore(capacity, gain, Zeroes(k - 1), k - 1, capacity - (k - 1) as real);
      assert Zeroes(k - 1) + [0.0] == Zeroes(k);
    }
  }

  lemma RockedRun(capacity: real, gain: Gain, times: seq<real>, d: real, u: real, level: real)
    requires capacity >= 1.0 && d > 0.0 && 0.0 <= u < 1.0 && level == u + gain(-d, 0.0)
    requires KeyRun(capacity, gain, times).bucket == Some(Bucket(u, 0.0))
    ensures var (run, after) := (KeyRun(capacity, gain, times), KeyRun(capacity, gain, times + [-d] + [0.0]));
            && after.granted == run.granted + [false] + [level >= 1.0]
            && (level < 1.0 ==> after.bucket == Some(Bucket(level, 0.0)))
  {
    KeySnoc(capacity, gain, times, -d);
    KeySnoc(capacity, gain, times + [-d], 0.0);
  }

  // The clock steps back by d and on again: what it gains is credited a second time.
  lemma Rocks(capacity: real, gain: Gain, times: seq<real>, d: real, g: nat, u: real, level: real)
    requires capacity >= 1.0 && d > 0.0 && Left(KeyRun(capacity, gain, times), g, u) && 0.0 <= u < 1.0
    requires level == u + gain(-d, 0.0)
    ensures var after := KeyRun(capacity, gain, times + [-d] + [0.0]);
            if level < 1.0 then Left(after, g, level) else Granted(after.granted, 0) == g + 1
  {
    var granted := KeyRun(capacity, gain, times).granted;
    RockedRun(capacity, gain, times, d, u, level);
    GrantedSnoc(granted, false, 0);
    GrantedSnoc(granted + [false], level >= 1.0, 0);
  }

  // Rocking on, one more request than the capacity is granted in the end.
  lemma {:induction false} OneTooMany(capacity: real, gain: Gain, times: seq<real>, d: real, g: nat, u: real, step: real, n: nat)
    returns (more: seq<real>)
    requires capacity >= 1.0 && d > 0.0 && Dips(times, d) && Left(KeyRun(capacity, gain, times), g, u) && 0.0 <= u < 1.0
    requires step == gain(-d, 0.0) > 0.0 && u + n as real * step >= 1.0
    ensures Dips(more, d) && Drops(more, d) && Granted(KeyRun(capacity, gain, more).granted, 0) == g + 1
    decreases n
  {
    more := times + [-d] + [0.0];
    DipsOn(times, d);
    Rocks(capacity, gain, times, d, g, u, u + step);
    if u + step < 1.0 {
      assert n > 0 && n as real * step == step + (n - 1) as real * step;
      more := OneTooMany(capacity, gain, more, d, g, u + step, step, n - 1);
    }
  }

  // A run that comes back to the time it started at grants at most the capacity, whatever it is, if and only
  // if the clock never steps back or there is never a token to give.
  lemma SteppingBackCreditsExactlyWhen(config: Config, d: real)
    requires config.Positive() && d >= 0.0
    ensures (forall times :: |times| > 0 && times[0] == times[|times| - 1] && Drops(times, d) ==>
               Granted(KeyRun(config.capacity, GainOf(config), times).granted, 0) as real <= config.capacity)
       <==> (d == 0.0 || config.capacity < 1.0)
  {
    GainIsSteady(config);
    if d == 0.0 {
      forall times | |times| > 0 && times[0] == times[|times| - 1] && Drops(times, d)
        ensures Granted(KeyRun(config.capacity, GainOf(config), times).granted, 0) as real <= config.capacity
      {
        assert Ordered(times);
        WindowBound(config.capacity, GainOf(config), times, 0);
      }
    } else if config.capacity < 1.0 {
      forall times ensures Granted(KeyRun(config.capacity, GainOf(config), times).granted, 0) == 0 {
        NeverGranted(config, times);
      }
    } else {
      var times := SteppedBack(config, d);
    }
  }

  lemma {:induction false} NeverGranted(config: Config, times: seq<real>)
    requires config.Positive() && config.capacity < 1.0
    ensures Granted(KeyRun(config.capacity, GainOf(config), times).granted, 0) == 0
    ensures Full(config.capacity, KeyRun(config.capacity, GainOf(config), times).bucket)
  {
    if |times| > 0 {
      var n := |times| - 1;
      NeverGranted(config, times[..n]);
      var before := KeyRun(config.capacity, GainOf(config), times[..n]);
      FullLevel(config, before.bucket, times[n]);
      FullSpends(config, before.bucket, times[n]);
      GrantedSnoc(before.granted, false, 0);
    }
  }

  lemma SteppedBack(config: Config, d: real) returns (times: seq<real>)
    requires config.Positive() && config.capacity >= 1.0 && d > 0.0
    ensures |times| > 0 && times[0] == times[|times| - 1] && Drops(times, d)
    ensures Granted(KeyRun(config.capacity, GainOf(config), times).granted, 0) as real > config.capacity
  {
    var k, rate := config.capacity.Floor, config.RefillPerMs();
    var u, step := config.capacity - k as real, d * rate;
    assert step > 0.0 && GainOf(config)(-d, 0.0) == step;
    AtOnce(config.capacity, GainOf(config), k);
    var steps := (1.0 - u) / step;
    var n := steps.Floor + 1;
    assert steps * step == 1.0 - u;
    LargerFactor(n as real, steps, step);
    times := OneTooMany(config.capacity, GainOf(config), Zeroes(k), d, k, u, step, n);
  }
}
