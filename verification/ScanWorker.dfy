// The self-rescheduling scan worker over a one-shot scheduler: one step per event, any events in any order.

module ScanWorker {
  import opened Lines

  datatype Options = Options(intervalMs: int, immediate: bool, stopOnError: bool)

  // A cycle runs, then its promise is settled, then its `finally` block runs.
  datatype Flight = Running | Settled

  // `armed` holds the timers that are live in the scheduler, with the time each is due; `timer` is the
  // worker's own handle, which may be stale. `begun` lists when cycles began.
  datatype State = State(
    startedAt: Option<int>, cancelled: bool, timer: Option<nat>, inFlight: Option<Flight>, runs: nat,
    armed: map<nat, int>, handles: nat, begun: seq<int>)

  const FRESH := State(None, false, None, None, 0, map[], 0, [])

  // ---------------------------------------------------------------- steps

  function Arm(o: Options, s: State, now: int): State {
    s.(armed := s.armed[s.handles := now + o.intervalMs], timer := Some(s.handles), handles := s.handles + 1)
  }

  function RunOnce(s: State, now: int): State {
    if s.cancelled || s.inFlight.Some? then s
    else s.(runs := s.runs + 1, inFlight := Some(Running), begun := s.begun + [now])
  }

  function Start(o: Options, s: State, now: int): State {
    if s.startedAt.Some? then s
    else if o.immediate then RunOnce(s.(startedAt := Some(now)), now)
    else Arm(o, s.(startedAt := Some(now)), now)
  }

  function Stop(s: State): State {
    s.(cancelled := true, armed := if s.timer.Some? then s.armed - {s.timer.value} else s.armed, timer := None)
  }

  // A one-shot timer is gone once it fires.
  function Fire(s: State, handle: nat, now: int): State {
    RunOnce(s.(armed := s.armed - {handle}), now)
  }

  function Settle(o: Options, s: State, failed: bool): State {
    s.(inFlight := Some(Settled), cancelled := s.cancelled || (failed && o.stopOnError))
  }

  function Complete(o: Options, s: State, now: int): State {
    var done := s.(inFlight := None);
    if s.cancelled then done else Arm(o, done, now)
  }

  class OneShotScheduler {
    var armed: map<nat, int>
    var handles: nat

    constructor ()
      ensures armed == map[] && handles == 0
    {
      armed, handles := map[], 0;
    }

    method Schedule(due: int) returns (handle: nat)
      modifies this
      ensures handle == old(handles) && handles == old(handles) + 1 && armed == old(armed)[handle := due]
    {
      handle := handles;
      armed, handles := armed[handle := due], handles + 1;
    }

    method Cancel(handle: nat)
      modifies `armed
      ensures armed == old(armed) - {handle}
    {
      armed := armed - {handle};
    }
  }

  class Worker {
    const options: Options
    const scheduler: OneShotScheduler
    var startedAt: Option<int>
    var cancelled: bool
    var timer: Option<nat>
    var inFlight: Option<Flight>
    var runs: nat
    ghost var begun: seq<int>

    ghost function Abs(): State
      reads this, scheduler
    {
      State(startedAt, cancelled, timer, inFlight, runs, scheduler.armed, scheduler.handles, begun)
    }

    constructor (options: Options)
      ensures this.options == options && fresh(scheduler) && Abs() == FRESH
    {
      this.options := options;
      scheduler := new OneShotScheduler();
      startedAt, cancelled, timer, inFlight, runs, begun := None, false, None, None, 0, [];
    }

    method ArmTimer(now: int)
      modifies this, scheduler
      ensures Abs() == Arm(options, old(Abs()), now)
    {
      var handle := scheduler.Schedule(now + options.intervalMs);
      timer := Some(handle);
    }

    // Up to the await.
    method BeginCycle(now: int)
      modifies this
      ensures Abs() == RunOnce(old(Abs()), now)
    {
      if cancelled {
        return;
      }
      if inFlight.Some? {
        return;
      }
      runs := runs + 1;
      inFlight := Some(Running);
      begun := begun + [now];
    }

    method StartWorker(now: int)
      modifies this, scheduler
      ensures Abs() == Start(options, old(Abs()), now)
    {
      if startedAt.Some? {
        return;
      }
      startedAt := Some(now);
      if options.immediate {
        BeginCycle(now);
      } else {
        ArmTimer(now);
      }
    }

    method StopWorker()
      modifies this, scheduler
      ensures Abs() == Stop(old(Abs()))
    {
      cancelled := true;
      if timer.Some? {
        scheduler.Cancel(timer.value);
      }
      timer := None;
    }

    method TimerFires(handle: nat, now: int)
      requires handle in scheduler.armed && now >= scheduler.armed[handle]
      modifies this, scheduler
      ensures Abs() == Fire(old(Abs()), handle, now)
    {
      scheduler.Cancel(handle);
      BeginCycle(now);
    }

    method SettleCycle(failed: bool)
      requires inFlight == Some(Running)
      modifies this
      ensures Abs() == Settle(options, old(Abs()), failed)
    {
      if failed && options.stopOnError {
        cancelled := true;
      }
      inFlight := Some(Settled);
    }

    method CompleteCycle(now: int)
      requires inFlight == Some(Settled)
      modifies this, scheduler
      ensures Abs() == Complete(options, old(Abs()), now)
    {
      inFlight := None;
      if !cancelled {
        ArmTimer(now);
      }
    }
  }

  // ---------------------------------------------------------------- runs

  datatype Event = Starts(now: int) | Stops(now: int) | Fires(handle: nat, now: int) | Settles(failed: bool, now: int)
                 | Completes(now: int)

  predicate Enabled(s: State, e: Event) {
    match e
    case Starts(_) => true
    case Stops(_) => true
    case Fires(handle, now) => handle in s.armed && now >= s.armed[handle]
    case Settles(_, _) => s.inFlight == Some(Running)
    case Completes(_) => s.inFlight == Some(Settled)
  }

  // An event that cannot happen in the state changes nothing.
  function Step(o: Options, s: State, e: Event): State {
    if !Enabled(s, e) then s
    else
      match e
      case Starts(now) => Start(o, s, now)
      case Stops(_) => Stop(s)
      case Fires(handle, now) => Fire(s, handle, now)
      case Settles(failed, _) => Settle(o, s, failed)
      case Completes(now) => Complete(o, s, now)
  }

  function RunFrom(o: Options, s: State, events: seq<Event>): State {
    if |events| == 0 then s else Step(o, RunFrom(o, s, events[..|events| - 1]), events[|events| - 1])
  }

  ghost predicate Chronological(events: seq<Event>) {
    forall i, j :: 0 <= i < j < |events| ==> events[i].now <= events[j].now
  }

  // ---------------------------------------------------------------- one at a time

  // The live timers: none, or the one the worker can cancel; and never one beside a cycle.
  ghost predicate OneAlive(s: State) {
    && (s.armed == map[] || (s.timer.Some? && s.armed.Keys == {s.timer.value} && s.inFlight.None?))
    && (s.startedAt.None? ==> s.armed == map[] && s.inFlight.None? && s.runs == 0)
    && (s.startedAt.Some? && !s.cancelled ==> s.armed != map[] || s.inFlight.Some?)
  }

  lemma ArmedAlone(o: Options, s: State, now: int)
    requires s.armed == map[]
    ensures Arm(o, s, now).armed.Keys == {s.handles}
  {
  }

  lemma StepKeepsOneAlive(o: Options, s: State, e: Event)
    requires OneAlive(s)
    ensures OneAlive(Step(o, s, e))
  {
    if Enabled(s, e) {
      match e
      case Starts(now) => if s.startedAt.None? { ArmedAlone(o, s.(startedAt := Some(now)), now); }
      case Stops(_) =>
      case Fires(handle, now) => assert s.armed - {handle} == map[];
      case Settles(failed, _) =>
      case Completes(now) => ArmedAlone(o, s.(inFlight := None), now);
    }
  }

  // In every state: between start and cancellation exactly one of a live timer and a cycle, no more ever,
  // and a timer never fires into a running cycle.
  lemma {:induction false} AlwaysOneAlive(o: Options, events: seq<Event>)
    ensures var s := RunFrom(o, FRESH, events);
            && OneAlive(s) && |s.armed| + (if s.inFlight.Some? then 1 else 0) <= 1
            && (s.startedAt.Some? && !s.cancelled ==> |s.armed| + (if s.inFlight.Some? then 1 else 0) == 1)
            && (forall handle, now :: Enabled(s, Fires(handle, now)) ==> s.inFlight.None?)
  {
    RunIsOneAlive(o, events);
    var s := RunFrom(o, FRESH, events);
    if s.armed != map[] {
      assert |s.armed| == |s.armed.Keys| == 1;
    }
  }

  lemma {:induction false} RunIsOneAlive(o: Options, events: seq<Event>)
    ensures OneAlive(RunFrom(o, FRESH, events))
  {
    if |events| > 0 {
      RunIsOneAlive(o, events[..|events| - 1]);
      StepKeepsOneAlive(o, RunFrom(o, FRESH, events[..|events| - 1]), events[|events| - 1]);
    }
  }

  // ---------------------------------------------------------------- what comes next

  // One timer is live, due at a time, and no cycle runs.
  ghost predicate Awaits(s: State, due: int) {
    exists handle :: s.timer == Some(handle) && s.armed == map[handle := due] && s.inFlight.None? && !s.cancelled
  }

  lemma Armed(o: Options, s: State, now: int)
    requires s.armed == map[] && s.inFlight.None? && !s.cancelled
    ensures Awaits(Arm(o, s, now), now + o.intervalMs)
  {
    assert Arm(o, s, now).armed == map[s.handles := now + o.intervalMs];
  }

  // A start begins a cycle at once, or leaves one timer due an interval later.
  lemma StartMeans(o: Options, now: int)
    ensures var s := RunFrom(o, FRESH, [Starts(now)]);
            s.startedAt == Some(now)
            && if o.immediate then s.begun == [now] && s.inFlight == Some(Running) && s.armed == map[]
               else s.begun == [] && Awaits(s, now + o.intervalMs)
  {
    assert [Starts(now)][..0] == [];
    assert RunFrom(o, FRESH, []) == FRESH;
    Armed(o, FRESH.(startedAt := Some(now)), now);
  }

  // A cycle that ends leaves one timer, due exactly an interval after the end, whether it failed or not; only a
  // failure under stopOnError cancels the worker.
  lemma EndMeans(o: Options, events: seq<Event>, failed: bool, settledAt: int, now: int, all: seq<Event>)
    requires var s := RunFrom(o, FRESH, events); s.inFlight == Some(Running) && !s.cancelled
    requires all == events + [Settles(failed, settledAt), Completes(now)]
    ensures var t := RunFrom(o, FRESH, all);
            if failed && o.stopOnError then t.cancelled && t.armed == map[] && t.inFlight.None?
            else Awaits(t, now + o.intervalMs)
  {
    var s, settled := RunFrom(o, FRESH, events), events + [Settles(failed, settledAt)];
    RunIsOneAlive(o, events);
    assert settled[..|events|] == events && all[..|settled|] == settled && all[|settled|] == Completes(now);
    var ended := Settle(o, s, failed);
    assert RunFrom(o, FRESH, all) == Complete(o, ended, now);
    if !ended.cancelled {
      Armed(o, ended.(inFlight := None), now);
    }
  }

  // A live timer begins a cycle as soon as it is due and not before.
  lemma TimerMeans(o: Options, s: State, due: int, handle: nat, now: int)
    requires Awaits(s, due) && handle in s.armed
    ensures var t := Step(o, s, Fires(handle, now));
            if now < due then t == s
            else t.begun == s.begun + [now] && t.runs == s.runs + 1 && t.inFlight == Some(Running) && t.armed == map[]
  {
    assert s.armed - {handle} == map[];
  }

  // ---------------------------------------------------------------- after stop

  // Once cancelled no cycle ever begins; one that was running may end, and then none runs again.
  lemma {:induction false} NoneAfterStop(o: Options, s: State, later: seq<Event>)
    requires s.cancelled
    ensures var end := RunFrom(o, s, later);
            end.cancelled && end.runs == s.runs && end.begun == s.begun && (s.inFlight.None? ==> end.inFlight.None?)
  {
    if |later| > 0 {
      NoneAfterStop(o, s, later[..|later| - 1]);
    }
  }

  // Stopping leaves no timer live, in any state a run reaches.
  lemma StopDisarms(o: Options, events: seq<Event>, now: int)
    ensures var s := RunFrom(o, FRESH, events + [Stops(now)]); s.cancelled && s.armed == map[]
  {
    RunIsOneAlive(o, events);
    assert (events + [Stops(now)])[..|events|] == events;
    var s := RunFrom(o, FRESH, events);
    assert s.armed != map[] ==> s.armed - {s.timer.value} == map[];
  }

  // ---------------------------------------------------------------- the rate

  ghost predicate Spaced(o: Options, begun: seq<int>) {
    forall i :: 0 < i < |begun| ==> begun[i] >= begun[i - 1] + o.intervalMs
  }

  // Cycles begin at least an interval apart, the first one no earlier than the start, or an interval later.
  ghost predicate Paced(o: Options, s: State, now: int) {
    && s.runs == |s.begun| && Spaced(o, s.begun)
    && (forall i :: 0 <= i < |s.begun| ==> s.begun[i] <= now)
    && (s.startedAt.Some? ==> s.startedAt.value <= now)
    && (|s.begun| > 0 ==> s.startedAt.Some? && s.begun[0] >= s.startedAt.value + Lead(o))
    && (forall handle :: handle in s.armed ==>
          && (|s.begun| > 0 ==> s.armed[handle] >= s.begun[|s.begun| - 1] + o.intervalMs)
          && (|s.begun| == 0 ==> s.startedAt.Some? && s.armed[handle] >= s.startedAt.value + Lead(o)))
    && (s.inFlight.Some? ==> |s.begun| > 0)
    && (o.immediate && s.startedAt.Some? && |s.begun| == 0 ==> s.cancelled && s.armed == map[])
  }

  function Lead(o: Options): int {
    if o.immediate then 0 else o.intervalMs
  }

  lemma BeginKeepsPace(o: Options, s: State, now: int)
    requires Paced(o, s, now) && s.startedAt.Some? && s.armed == map[]
    requires |s.begun| > 0 ==> now >= s.begun[|s.begun| - 1] + o.intervalMs
    requires |s.begun| == 0 ==> now >= s.startedAt.value + Lead(o)
    ensures Paced(o, RunOnce(s, now), now)
  {
  }

  lemma FireKeepsPace(o: Options, s: State, handle: nat, now: int, before: int)
    requires OneAlive(s) && Paced(o, s, before) && before <= now && handle in s.armed && now >= s.armed[handle]
    ensures Paced(o, Fire(s, handle, now), now)
  {
    assert s.armed - {handle} == map[];
    if !s.cancelled {
      BeginKeepsPace(o, s.(armed := map[]), now);
    }
  }

  lemma StartKeepsPace(o: Options, s: State, now: int, before: int)
    requires OneAlive(s) && Paced(o, s, before) && before <= now
    ensures Paced(o, Start(o, s, now), now)
  {
  }

  lemma CompleteKeepsPace(o: Options, s: State, now: int, before: int)
    requires OneAlive(s) && Paced(o, s, before) && before <= now && s.inFlight.Some?
    ensures Paced(o, Complete(o, s, now), now)
  {
  }

  lemma StepKeepsPace(o: Options, s: State, e: Event, before: int)
    requires OneAlive(s) && Paced(o, s, before) && before <= e.now
    ensures Paced(o, Step(o, s, e), e.now)
  {
    if Enabled(s, e) {
      match e
      case Starts(now) => StartKeepsPace(o, s, now, before);
      case Stops(_) =>
      case Fires(handle, now) => FireKeepsPace(o, s, handle, now, before);
      case Settles(failed, _) =>
      case Completes(now) => CompleteKeepsPace(o, s, now, before);
    }
  }

  lemma {:induction false} RunIsPaced(o: Options, events: seq<Event>, now: int)
    requires Chronological(events) && (|events| > 0 ==> events[|events| - 1].now == now)
    ensures Paced(o, RunFrom(o, FRESH, events), now)
  {
    if |events| > 0 {
      var n := |events| - 1;
      var before := if n > 0 then events[n - 1].now else now;
      RunIsPaced(o, events[..n], before);
      RunIsOneAlive(o, events[..n]);
      StepKeepsPace(o, RunFrom(o, FRESH, events[..n]), events[n], before);
    }
  }

  lemma {:induction false} SpacedSpan(o: Options, begun: seq<int>, spans: int)
    requires |begun| > 0 && Spaced(o, begun) && spans == (|begun| - 1) * o.intervalMs
    ensures begun[|begun| - 1] >= begun[0] + spans
  {
    if |begun| > 1 {
      var n := |begun| - 1;
      assert (n - 1) * o.intervalMs == n * o.intervalMs - o.intervalMs;
      SpacedSpan(o, begun[..n], (n - 1) * o.intervalMs);
    }
  }

  lemma PacedRuns(o: Options, s: State, now: int, spans: int)
    requires Paced(o, s, now) && s.runs > 0 && spans == (s.runs - 1) * o.intervalMs
    ensures s.startedAt.Some? && spans + Lead(o) <= now - s.startedAt.value
  {
    SpacedSpan(o, s.begun, spans);
  }

  // The intervals that must have passed before so many cycles began.
  function Intervals(o: Options, runs: nat): int
    requires runs > 0
  {
    if o.immediate then (runs - 1) * o.intervalMs else runs * o.intervalMs
  }

  lemma IntervalsAre(o: Options, runs: nat)
    requires runs > 0
    ensures Intervals(o, runs) == (runs - 1) * o.intervalMs + Lead(o)
  {
    assert runs * o.intervalMs == (runs - 1) * o.intervalMs + o.intervalMs;
  }

  // By any time, at most one cycle per whole interval since the start, and one more when the first is immediate.
  lemma RunsAtMost(o: Options, events: seq<Event>, now: int)
    requires Chronological(events) && |events| > 0 && events[|events| - 1].now == now
    ensures var s := RunFrom(o, FRESH, events);
            s.runs > 0 ==> s.startedAt.Some? && Intervals(o, s.runs) <= now - s.startedAt.value
  {
    RunIsPaced(o, events, now);
    var s := RunFrom(o, FRESH, events);
    if s.runs > 0 {
      PacedRuns(o, s, now, (s.runs - 1) * o.intervalMs);
      IntervalsAre(o, s.runs);
    }
  }
}
