// The alert protocol, for each condition, over any run.

module AlertTheorems {
  import opened Lines
  import opened Sequences
  import opened Tables
  import opened Alerts

  // ---------------------------------------------------------------- the protocol

  // The last event is a firing that nothing has closed.
  predicate Open(events: seq<AlertEvent>) {
    |events| > 0 && events[|events| - 1].Firing?
  }

  predicate Worse(a: AlertEvent, b: AlertEvent) {
    RankOf(a.severity) < RankOf(b.severity)
  }

  // May `next` follow these events? A resolution closes an open firing; a firing opens an incident,
  // or repeats an open one that got worse or was last notified at least renotifyMs ago.
  predicate MayFollow(events: seq<AlertEvent>, next: AlertEvent, policy: Policy) {
    if next.Resolved? then Open(events)
    else
      && next.severity == SeverityOf(next.level) && RankOf(next.severity) >= RankOf(policy.minSeverity)
      && (Open(events) ==>
            var last := events[|events| - 1];
            Worse(last, next) || (policy.renotifyMs > 0 && next.at - last.at >= policy.renotifyMs))
  }

  ghost predicate Legal(events: seq<AlertEvent>, policy: Policy) {
    forall i :: 0 <= i < |events| ==> MayFollow(events[..i], events[i], policy)
  }

  lemma LegalAppend(events: seq<AlertEvent>, next: AlertEvent, policy: Policy)
    requires Legal(events, policy) && MayFollow(events, next, policy)
    ensures Legal(events + [next], policy)
  {
    var all := events + [next];
    forall i | 0 <= i < |all| ensures MayFollow(all[..i], all[i], policy) {
      if i < |events| {
        assert all[..i] == events[..i];
      } else {
        assert all[..i] == events;
      }
    }
  }

  // ---------------------------------------------------------------- what a run keeps

  ghost predicate ForId(id: Id, inputs: seq<Input>) {
    forall i :: 0 <= i < |inputs| && inputs[i].Seen? ==> inputs[i].observation.id == id
  }

  // The state is a summary of the inputs: how long the bad run is, and when it began.
  ghost predicate Summarises(state: Option<RuleState>, inputs: seq<Input>, policy: Policy) {
    var run := BadRun(inputs);
    && (state.Some? <==> |inputs| > 0 && inputs[|inputs| - 1].Seen?)
    && (state.Some? ==>
          && state.value.level == inputs[|inputs| - 1].observation.level
          && state.value.badStreak == |run|
          && state.value.sinceFirstBad == (if |run| == 0 then None else Some(run[0].at))
          && (state.value.active <==> |run| >= Threshold(policy))
          && (state.value.notified ==> state.value.active))
    && (state.None? ==> run == [])
  }

  // The state remembers the open firing, if there is one.
  ghost predicate Remembers(state: Option<RuleState>, events: seq<AlertEvent>) {
    && (IsNotified(state) <==> Open(events))
    && (Open(events) ==>
          && state.value.notifiedSeverity == Some(events[|events| - 1].severity)
          && state.value.notifiedAt == Some(events[|events| - 1].at))
  }

  lemma BadRunStep(inputs: seq<Input>, input: Input)
    ensures BadRun(inputs + [input])
         == if input.Gone? || input.observation.level == Healthy then [] else BadRun(inputs) + [input.observation]
  {
    assert (inputs + [input])[..|inputs|] == inputs;
  }

  lemma StepSummarises(id: Id, inputs: seq<Input>, prior: Option<RuleState>, input: Input, policy: Policy)
    requires Summarises(prior, inputs, policy)
    ensures Summarises(StepOf(id, prior, input, policy).state, inputs + [input], policy)
  {
    BadRunStep(inputs, input);
  }

  // At most one event, one that may follow what came before, and the state remembers it.
  ghost predicate Follows(id: Id, events: seq<AlertEvent>, next: Progress, policy: Policy) {
    && |next.events| <= 1 && Remembers(next.state, events + next.events)
    && (|next.events| == 1 ==> next.events[0].id == id && MayFollow(events, next.events[0], policy))
  }

  lemma StepFollows(id: Id, prior: Option<RuleState>, input: Input, policy: Policy, events: seq<AlertEvent>)
    requires Fits(id, prior, events, input)
    ensures Follows(id, events, StepOf(id, prior, input, policy), policy)
  {
    assert events + [] == events;
  }

  // A step that keeps the summary and the protocol, whatever it is given.
  ghost predicate Sound(step: Step, id: Id, policy: Policy) {
    && (forall prior, inputs, input :: Summarises(prior, inputs, policy)
          ==> Summarises(step(prior, input).state, inputs + [input], policy))
    && (forall prior, events, input :: Fits(id, prior, events, input) ==> Follows(id, events, step(prior, input), policy))
  }

  ghost predicate Fits(id: Id, prior: Option<RuleState>, events: seq<AlertEvent>, input: Input) {
    && Remembers(prior, events) && (IsNotified(prior) ==> IsActive(prior))
    && (input.Seen? ==> input.observation.id == id)
  }

  lemma StepperIsSound(id: Id, policy: Policy)
    ensures Sound(Stepper(id, policy), id, policy)
  {
    var step := Stepper(id, policy);
    forall prior, inputs, input | Summarises(prior, inputs, policy)
      ensures Summarises(step(prior, input).state, inputs + [input], policy)
    {
      StepSummarises(id, inputs, prior, input, policy);
    }
    forall prior, events, input | Fits(id, prior, events, input)
      ensures Follows(id, events, step(prior, input), policy)
    {
      StepFollows(id, prior, input, policy, events);
    }
  }

  ghost predicate Obeys(run: Progress, inputs: seq<Input>, policy: Policy) {
    Summarises(run.state, inputs, policy) && Remembers(run.state, run.events) && Legal(run.events, policy)
  }

  lemma ObeysSnoc(id: Id, before: Progress, inputs: seq<Input>, input: Input, next: Progress, policy: Policy)
    requires Obeys(before, inputs, policy) && Follows(id, before.events, next, policy)
    requires Summarises(next.state, inputs + [input], policy)
    ensures Obeys(Progress(next.state, before.events + next.events), inputs + [input], policy)
  {
    if |next.events| == 1 {
      LegalAppend(before.events, next.events[0], policy);
      assert next.events == [next.events[0]];
    } else {
      assert before.events + next.events == before.events;
    }
  }

  lemma SoundStep(step: Step, id: Id, before: Progress, inputs: seq<Input>, input: Input, policy: Policy)
    requires Sound(step, id, policy) && Obeys(before, inputs, policy) && (input.Seen? ==> input.observation.id == id)
    ensures Summarises(step(before.state, input).state, inputs + [input], policy)
    ensures Follows(id, before.events, step(before.state, input), policy)
  {
    assert Fits(id, before.state, before.events, input);
  }

  // Over any run, what one condition emits obeys the protocol.
  lemma {:induction false} RunObeys(step: Step, id: Id, inputs: seq<Input>, policy: Policy)
    requires ForId(id, inputs) && Sound(step, id, policy)
    ensures Obeys(RunOf(step, inputs), inputs, policy)
  {
    if |inputs| > 0 {
      var n := |inputs| - 1;
      var before := RunOf(step, inputs[..n]);
      RunObeys(step, id, inputs[..n], policy);
      SoundStep(step, id, before, inputs[..n], inputs[n], policy);
      ObeysSnoc(id, before, inputs[..n], inputs[n], step(before.state, inputs[n]), policy);
      assert inputs == inputs[..n] + [inputs[n]];
    }
  }

  // ---------------------------------------------------------------- when and since when

  lemma FiringOf(id: Id, prior: Option<RuleState>, inputs: seq<Input>, input: Input, policy: Policy)
    requires Summarises(prior, inputs, policy)
    ensures var (events, run) := (StepOf(id, prior, input, policy).events, BadRun(inputs + [input]));
            |events| > 0 && events[0].Firing? ==>
              |run| > 0 && |run| >= Threshold(policy) && events[0].since == run[0].at && events[0].level == run[|run| - 1].level
  {
    BadRunStep(inputs, input);
  }

  // A firing names the first observation of an unbroken bad run at least as long as the hysteresis.
  lemma FiringSince(id: Id, inputs: seq<Input>, input: Input, policy: Policy, prior: Option<RuleState>)
    requires ForId(id, inputs) && prior == RunOf(Stepper(id, policy), inputs).state
    ensures var (events, run) := (StepOf(id, prior, input, policy).events, BadRun(inputs + [input]));
            |events| > 0 && events[0].Firing? ==>
              |run| > 0 && |run| >= Threshold(policy) && events[0].since == run[0].at && events[0].level == run[|run| - 1].level
  {
    StepperIsSound(id, policy);
    RunObeys(Stepper(id, policy), id, inputs, policy);
    FiringOf(id, prior, inputs, input, policy);
  }

  // Long enough, and now at or above the floor.
  predicate Serious(run: seq<Observation>, policy: Policy) {
    |run| > 0 && |run| >= Threshold(policy) && RankOf(SeverityOf(run[|run| - 1].level)) >= RankOf(policy.minSeverity)
  }

  lemma NotifiedWhen(id: Id, prior: Option<RuleState>, inputs: seq<Input>, input: Input, policy: Policy)
    requires Summarises(prior, inputs, policy)
    ensures var (next, run) := (StepOf(id, prior, input, policy).state, BadRun(inputs + [input]));
            && (IsNotified(next) ==> |run| >= Threshold(policy))
            && (Serious(run, policy) ==> IsNotified(next))
  {
    BadRunStep(inputs, input);
  }

  // An incident is open only during a bad run as long as the hysteresis; and whenever such a run ends
  // in a level at or above the floor, it is open.
  lemma OpenMeans(id: Id, inputs: seq<Input>, input: Input, policy: Policy, all: seq<Input>)
    requires ForId(id, all) && all == inputs + [input]
    ensures var (run, events) := (BadRun(all), RunOf(Stepper(id, policy), all).events);
            && (Open(events) ==> |run| >= Threshold(policy))
            && (Serious(run, policy) ==> Open(events))
  {
    assert forall i :: 0 <= i < |inputs| ==> inputs[i] == all[i];
    assert all[..|inputs|] == inputs;
    StepperIsSound(id, policy);
    RunObeys(Stepper(id, policy), id, inputs, policy);
    RunObeys(Stepper(id, policy), id, all, policy);
    NotifiedWhen(id, RunOf(Stepper(id, policy), inputs).state, inputs, input, policy);
  }

  // ---------------------------------------------------------------- what must be sent

  ghost predicate LongEnough(run: seq<Observation>, policy: Policy) {
    |run| >= 1 && |run| >= policy.hysteresis
  }

  // DEGRADED warns and DOWN is critical, so only a critical floor keeps anything back.
  ghost predicate AtFloor(level: Level, policy: Policy) {
    policy.minSeverity == Critical ==> level == Down
  }

  ghost predicate Above(level: Level, severity: Severity) {
    (level == Down && severity != Critical) || (level == Degraded && severity == Info)
  }

  ghost predicate Ended(input: Input) {
    input.Gone? || input.observation.level == Healthy
  }

  // A firing is due on a bad run long enough and at or above the floor, if none is open, or if this is worse than
  // the last one, or if the last one is at least the re-notification interval ago.
  ghost predicate MustFire(events: seq<AlertEvent>, run: seq<Observation>, now: int, policy: Policy) {
    && LongEnough(run, policy) && AtFloor(run[|run| - 1].level, policy)
    && (|events| == 0 || events[|events| - 1].Resolved?
        || Above(run[|run| - 1].level, events[|events| - 1].severity)
        || (policy.renotifyMs > 0 && now - events[|events| - 1].at >= policy.renotifyMs))
  }

  // A resolution is due when a firing is open and the bad run ends.
  ghost predicate MustResolve(events: seq<AlertEvent>, input: Input) {
    |events| > 0 && events[|events| - 1].Firing? && Ended(input)
  }

  ghost function Gravity(level: Level): Severity {
    match level case Down => Critical case _ => Warning
  }

  // The bad run up to now, and the level last seen before it.
  ghost function FiringFor(id: Id, inputs: seq<Input>, run: seq<Observation>, now: int): AlertEvent
    requires |run| > 0
  {
    var level := run[|run| - 1].level;
    var previous := if |inputs| > 0 && inputs[|inputs| - 1].Seen? then Some(inputs[|inputs| - 1].observation.level) else None;
    Firing(id, Gravity(level), level, previous, run[0].at, now)
  }

  // The bad run that ended.
  ghost function ResolutionFor(id: Id, run: seq<Observation>, now: int): AlertEvent
    requires |run| > 0
  {
    var level := run[|run| - 1].level;
    Resolved(id, Gravity(level), level, run[0].at, now)
  }

  // All that is sent for an input, after these inputs and these events: the firing due, the resolution due, or nothing.
  ghost predicate SendsExactly(id: Id, inputs: seq<Input>, events: seq<AlertEvent>, input: Input, sent: seq<AlertEvent>,
      policy: Policy)
  {
    var run, before := BadRun(inputs + [input]), BadRun(inputs);
    if MustFire(events, run, input.now, policy) then sent == [FiringFor(id, inputs, run, input.now)]
    else if MustResolve(events, input) then |before| > 0 && sent == [ResolutionFor(id, before, input.now)]
    else sent == []
  }

  lemma SendsWhenEnded(id: Id, prior: Option<RuleState>, inputs: seq<Input>, events: seq<AlertEvent>, input: Input, policy: Policy)
    requires Summarises(prior, inputs, policy) && Remembers(prior, events) && Ended(input)
    requires input.Seen? ==> input.observation.id == id
    ensures SendsExactly(id, inputs, events, input, StepOf(id, prior, input, policy).events, policy)
  {
    BadRunStep(inputs, input);
    if IsNotified(prior) {
      LastOfRun(inputs);
    }
  }

  // A bad run ends with the last input.
  lemma LastOfRun(inputs: seq<Input>)
    requires |BadRun(inputs)| > 0
    ensures |inputs| > 0 && inputs[|inputs| - 1].Seen?
    ensures BadRun(inputs)[|BadRun(inputs)| - 1] == inputs[|inputs| - 1].observation
  {
  }

  lemma ThresholdMeans(run: seq<Observation>, policy: Policy)
    ensures LongEnough(run, policy) <==> |run| >= Threshold(policy)
  {
  }

  lemma NotifiesWhen(o: Observation, prior: Option<RuleState>, policy: Policy, now: int, events: seq<AlertEvent>)
    requires o.level != Healthy && Remembers(prior, events) && (IsNotified(prior) ==> IsActive(prior))
    ensures Notifies(o, prior, policy, now)
       <==> && AtFloor(o.level, policy)
            && (|events| == 0 || events[|events| - 1].Resolved? || Above(o.level, events[|events| - 1].severity)
                || (policy.renotifyMs > 0 && now - events[|events| - 1].at >= policy.renotifyMs))
  {
  }

  lemma FiringIs(o: Observation, prior: Option<RuleState>, inputs: seq<Input>, policy: Policy, now: int, run: seq<Observation>)
    requires Summarises(prior, inputs, policy) && o.level != Healthy && run == BadRun(inputs) + [o]
    requires |run| >= Threshold(policy) && Notifies(o, prior, policy, now)
    ensures AdvanceRule(o, prior, policy, now).events == [FiringFor(o.id, inputs, run, now)]
  {
  }

  lemma QuietOtherwise(o: Observation, prior: Option<RuleState>, inputs: seq<Input>, policy: Policy, now: int,
      run: seq<Observation>)
    requires Summarises(prior, inputs, policy) && o.level != Healthy && run == BadRun(inputs) + [o]
    requires |run| < Threshold(policy) || !Notifies(o, prior, policy, now)
    ensures AdvanceRule(o, prior, policy, now).events == []
  {
  }

  lemma SendsWhenBad(id: Id, prior: Option<RuleState>, inputs: seq<Input>, events: seq<AlertEvent>, input: Input, policy: Policy)
    requires Summarises(prior, inputs, policy) && Remembers(prior, events) && !Ended(input) && input.observation.id == id
    ensures SendsExactly(id, inputs, events, input, StepOf(id, prior, input, policy).events, policy)
  {
    var o, run := input.observation, BadRun(inputs) + [input.observation];
    BadRunStep(inputs, input);
    ThresholdMeans(run, policy);
    NotifiesWhen(o, prior, policy, input.now, events);
    if |run| >= Threshold(policy) && Notifies(o, prior, policy, input.now) {
      FiringIs(o, prior, inputs, policy, input.now, run);
    } else {
      QuietOtherwise(o, prior, inputs, policy, input.now, run);
    }
  }

  // Over any run, an input sends exactly what is due.
  lemma RunSends(id: Id, inputs: seq<Input>, input: Input, policy: Policy, all: seq<Input>) returns (sent: seq<AlertEvent>)
    requires ForId(id, all) && all == inputs + [input]
    ensures RunOf(Stepper(id, policy), all).events == RunOf(Stepper(id, policy), inputs).events + sent
    ensures SendsExactly(id, inputs, RunOf(Stepper(id, policy), inputs).events, input, sent, policy)
  {
    assert forall i :: 0 <= i < |inputs| ==> inputs[i] == all[i];
    assert all[..|inputs|] == inputs && all[|inputs|] == input;
    StepperIsSound(id, policy);
    RunObeys(Stepper(id, policy), id, inputs, policy);
    var before := RunOf(Stepper(id, policy), inputs);
    sent := StepOf(id, before.state, input, policy).events;
    if Ended(input) {
      SendsWhenEnded(id, before.state, inputs, before.events, input, policy);
    } else {
      SendsWhenBad(id, before.state, inputs, before.events, input, policy);
    }
  }

  // Without re-notification an incident fires at most twice.
  lemma AtMostTwoFirings(events: seq<AlertEvent>, policy: Policy, i: nat)
    requires Legal(events, policy) && policy.renotifyMs <= 0 && i + 2 < |events|
    ensures !(events[i].Firing? && events[i + 1].Firing? && events[i + 2].Firing?)
  {
    assert MayFollow(events[..i], events[i], policy);
    assert MayFollow(events[..i + 1], events[i + 1], policy) && MayFollow(events[..i + 2], events[i + 2], policy);
    assert events[..i + 1][i] == events[i] && events[..i + 2][i + 1] == events[i + 1];
  }

  // ---------------------------------------------------------------- runs of whole snapshots

  ghost predicate UniqueObservations(observations: seq<Observation>) {
    forall i, j :: 0 <= i < j < |observations| ==> observations[i].id != observations[j].id
  }

  function IsFor(id: Id): AlertEvent -> bool {
    (e: AlertEvent) => e.id == id
  }

  // The last observation of an id, if any.
  function ObservationOf(observations: seq<Observation>, id: Id): Option<Observation> {
    if |observations| == 0 then None
    else
      var last := observations[|observations| - 1];
      if last.id == id then Some(last) else ObservationOf(observations[..|observations| - 1], id)
  }

  function InputFor(snapshot: Snapshot, id: Id): Input {
    match ObservationOf(Observations(snapshot), id)
    case Some(o) => Seen(o, snapshot.at)
    case None => Gone(snapshot.at)
  }

  lemma {:induction false} ObservationMeans(observations: seq<Observation>, id: Id)
    ensures ObservationOf(observations, id).Some? <==> Sees(observations, id)
    ensures ObservationOf(observations, id).Some? ==> ObservationOf(observations, id).value.id == id
  {
    if |observations| > 0 {
      var n := |observations| - 1;
      ObservationMeans(observations[..n], id);
      assert forall i :: 0 <= i < n ==> observations[..n][i] == observations[i];
      if observations[n].id == id {
        assert Sees(observations, id);
      }
    }
  }

  lemma AdvanceEmits(o: Observation, prior: Option<RuleState>, policy: Policy, now: int)
    ensures |AdvanceRule(o, prior, policy, now).events| <= 1
    ensures forall e :: e in AdvanceRule(o, prior, policy, now).events ==> e.id == o.id
  {
  }

  // How one observation moves one id.
  ghost predicate Projects(r: Evaluation, observations: seq<Observation>, previous: Rules, policy: Policy, now: int, id: Id) {
    match ObservationOf(observations, id)
    case None => Get(r.rules, id) == None && Filter(IsFor(id), r.events) == []
    case Some(o) =>
      var advanced := AdvanceRule(o, Get(previous, id), policy, now);
      Get(r.rules, id) == Some(advanced.state) && Filter(IsFor(id), r.events) == advanced.events
  }

  lemma {:induction false} AdvanceKeepsUnique(observations: seq<Observation>, previous: Rules, policy: Policy, now: int)
    ensures OneEach(AdvanceAll(observations, previous, policy, now).rules)
  {
    if |observations| > 0 {
      var n := |observations| - 1;
      AdvanceKeepsUnique(observations[..n], previous, policy, now);
      var o := observations[n];
      PutKeepsOneEach(AdvanceAll(observations[..n], previous, policy, now).rules, o.id,
                     AdvanceRule(o, Get(previous, o.id), policy, now).state);
    }
  }

  lemma ObservationSnoc(front: seq<Observation>, o: Observation, id: Id)
    ensures ObservationOf(front + [o], id) == if o.id == id then Some(o) else ObservationOf(front, id)
  {
    assert (front + [o])[..|front|] == front;
  }

  // In one pass over the observations each id advances by its own observation alone.
  lemma {:induction false} AdvanceProjects(observations: seq<Observation>, previous: Rules, policy: Policy, now: int, id: Id)
    requires UniqueObservations(observations)
    ensures Projects(AdvanceAll(observations, previous, policy, now), observations, previous, policy, now, id)
    decreases |observations|
  {
    if |observations| > 0 {
      var n := |observations| - 1;
      var front, o := observations[..n], observations[n];
      var before := AdvanceAll(front, previous, policy, now);
      var advanced := AdvanceRule(o, Get(previous, o.id), policy, now);
      assert observations == front + [o];
      AdvanceProjects(front, previous, policy, now, id);
      ObservationMeans(front, id);
      ObservationSnoc(front, o, id);
      ProjectsSnoc(before, front, o, previous, policy, now, id, advanced);
    }
  }

  lemma ProjectsSnoc(before: Evaluation, front: seq<Observation>, o: Observation, previous: Rules, policy: Policy, now: int,
      id: Id, advanced: Advanced)
    requires Projects(before, front, previous, policy, now, id)
    requires advanced == AdvanceRule(o, Get(previous, o.id), policy, now)
    requires o.id == id ==> ObservationOf(front, id) == None
    ensures Projects(Evaluation(before.events + advanced.events, Put(before.rules, o.id, advanced.state)),
                     front + [o], previous, policy, now, id)
  {
    AdvanceEmits(o, Get(previous, o.id), policy, now);
    FilterSplit(IsFor(id), before.events, advanced.events);
    FilterOne(IsFor(id), advanced.events, o.id == id);
    PutGet(before.rules, o.id, advanced.state, id);
    ObservationSnoc(front, o, id);
  }

  // What a disappearing entry emits is about its own id, at most once.
  ghost predicate OwnId(gone: Emits) {
    forall e :: |gone(e)| <= 1 && forall x :: x in gone(e) ==> x.id == e.key
  }

  lemma GoneSnoc(gone: Emits, front: Rules, last: Entry<Id, RuleState>, id: Id, previous: Rules)
    requires OwnId(gone) && previous == front + [last]
    ensures Filter(IsFor(id), FlatMap(gone, previous))
         == Filter(IsFor(id), FlatMap(gone, front)) + if last.key == id then gone(last) else []
  {
    assert previous[..|previous| - 1] == front;
    FilterSplit(IsFor(id), FlatMap(gone, front), gone(last));
    FilterOne(IsFor(id), gone(last), last.key == id);
  }

  function GoneOf(gone: Emits, state: Option<RuleState>, id: Id): seq<AlertEvent> {
    if state.Some? then gone(Entry(id, state.value)) else []
  }

  lemma {:induction false} GoneProjects(gone: Emits, previous: Rules, id: Id)
    requires OwnId(gone) && OneEach(previous)
    ensures Filter(IsFor(id), FlatMap(gone, previous)) == GoneOf(gone, Get(previous, id), id)
  {
    if |previous| > 0 {
      var n := |previous| - 1;
      var front, last := previous[..n], previous[n];
      GoneProjects(gone, front, id);
      GoneSnoc(gone, front, last, id, previous);
      FreshLast(previous, front, last);
      GoneJoins(gone, front, last, id, Filter(IsFor(id), FlatMap(gone, front)));
      assert previous == front + [last];
    }
  }

  lemma GoneJoins(gone: Emits, front: Rules, last: Entry<Id, RuleState>, id: Id, events: seq<AlertEvent>)
    requires events == GoneOf(gone, Get(front, id), id) && !Lists(front, last.key)
    ensures events + (if last.key == id then gone(last) else []) == GoneOf(gone, Get(front + [last], id), id)
  {
    GetMeans(front, id);
    GetSnoc(front, last, id);
  }

  lemma FreshLast(previous: Rules, front: Rules, last: Entry<Id, RuleState>)
    requires OneEach(previous) && |previous| > 0 && front == previous[..|previous| - 1] && last == previous[|previous| - 1]
    ensures !Lists(front, last.key)
  {
  }

  // What becomes of an id, given what was observed of it and what its entry emits when gone.
  function Own(prior: Option<RuleState>, seen: Option<Observation>, gone: Emits, policy: Policy, now: int,
      id: Id): Progress {
    match seen
    case Some(o) => Progress(Some(AdvanceRule(o, prior, policy, now).state), AdvanceRule(o, prior, policy, now).events)
    case None => Progress(None, GoneOf(gone, prior, id))
  }

  ghost predicate Silent(gone: Emits, id: Id) {
    forall state :: gone(Entry(id, state)) == []
  }

  lemma DisappearedMeans(observations: seq<Observation>, now: int, id: Id)
    ensures OwnId(Disappeared(observations, now))
    ensures ObservationOf(observations, id).Some? ==> Silent(Disappeared(observations, now), id)
  {
    ObservationMeans(observations, id);
  }

  lemma PassesProject(advanced: Evaluation, observations: seq<Observation>, gone: Emits, previous: Rules,
      policy: Policy, now: int, id: Id)
    requires Projects(advanced, observations, previous, policy, now, id)
    requires OwnId(gone) && OneEach(previous)
    requires ObservationOf(observations, id).Some? ==> Silent(gone, id)
    ensures var own := Own(Get(previous, id), ObservationOf(observations, id), gone, policy, now, id);
            Get(advanced.rules, id) == own.state && Filter(IsFor(id), advanced.events + FlatMap(gone, previous)) == own.events
  {
    GoneProjects(gone, previous, id);
    FilterSplit(IsFor(id), advanced.events, FlatMap(gone, previous));
  }

  lemma OwnIsStep(snapshot: Snapshot, prior: Option<RuleState>, policy: Policy, id: Id)
    ensures Own(prior, ObservationOf(Observations(snapshot), id), Disappeared(Observations(snapshot), snapshot.at), policy,
                snapshot.at, id) == StepOf(id, prior, InputFor(snapshot, id), policy)
  {
    ObservationMeans(Observations(snapshot), id);
  }

  // One evaluation moves each condition exactly as its own observation, or its absence, says.
  lemma EvaluateProjects(snapshot: Snapshot, previous: Rules, policy: Policy, id: Id)
    requires UniqueObservations(Observations(snapshot)) && OneEach(previous)
    ensures var (r, own) := (Evaluate(snapshot, previous, policy), StepOf(id, Get(previous, id), InputFor(snapshot, id), policy));
            Get(r.rules, id) == own.state && Filter(IsFor(id), r.events) == own.events
  {
    var observations := Observations(snapshot);
    AdvanceProjects(observations, previous, policy, snapshot.at, id);
    DisappearedMeans(observations, snapshot.at, id);
    PassesProject(AdvanceAll(observations, previous, policy, snapshot.at), observations,
                  Disappeared(observations, snapshot.at), previous, policy, snapshot.at, id);
    OwnIsStep(snapshot, Get(previous, id), policy, id);
  }

  // No source is reported twice in one snapshot.
  ghost predicate UniqueKeys(snapshot: Snapshot) {
    forall i, j :: 0 <= i < j < |snapshot.sources| ==> snapshot.sources[i].0 != snapshot.sources[j].0
  }

  lemma KeysMakeIds(snapshot: Snapshot)
    requires UniqueKeys(snapshot)
    ensures UniqueObservations(Observations(snapshot))
  {
    var all := Observations(snapshot);
    assert forall i :: 1 <= i < |all| ==> all[i].id == SourceKey(snapshot.sources[i - 1].0);
  }

  function InputsFor(snapshots: seq<Snapshot>, id: Id): seq<Input> {
    Map((s: Snapshot) => InputFor(s, id), snapshots)
  }

  ghost predicate AllUnique(snapshots: seq<Snapshot>) {
    forall i :: 0 <= i < |snapshots| ==> UniqueKeys(snapshots[i])
  }

  lemma InputsAreFor(snapshots: seq<Snapshot>, id: Id)
    ensures ForId(id, InputsFor(snapshots, id))
  {
    forall i | 0 <= i < |snapshots| && InputFor(snapshots[i], id).Seen?
      ensures InputFor(snapshots[i], id).observation.id == id
    {
      ObservationMeans(Observations(snapshots[i]), id);
    }
  }

  // A run of the evaluator is, condition by condition, a run of that condition alone.
  lemma {:induction false} RunProjects(snapshots: seq<Snapshot>, policy: Policy, id: Id)
    requires AllUnique(snapshots)
    ensures var (all, own) := (RunAll(snapshots, policy), RunOf(Stepper(id, policy), InputsFor(snapshots, id)));
            && OneEach(all.rules)
            && Get(all.rules, id) == own.state && Filter(IsFor(id), all.events) == own.events
  {
    if |snapshots| > 0 {
      var n := |snapshots| - 1;
      var front, last := snapshots[..n], snapshots[n];
      RunProjects(front, policy, id);
      var before := RunAll(front, policy);
      KeysMakeIds(last);
      AdvanceKeepsUnique(Observations(last), before.rules, policy, last.at);
      EvaluateProjects(last, before.rules, policy, id);
      FilterSplit(IsFor(id), before.events, Evaluate(last, before.rules, policy).events);
      assert InputsFor(snapshots, id)[..n] == InputsFor(front, id);
    }
  }

  // Over any run of snapshots, the events of each condition obey the protocol.
  lemma RunIsLegal(snapshots: seq<Snapshot>, policy: Policy, id: Id)
    requires AllUnique(snapshots)
    ensures Legal(Filter(IsFor(id), RunAll(snapshots, policy).events), policy)
  {
    RunProjects(snapshots, policy, id);
    InputsAreFor(snapshots, id);
    StepperIsSound(id, policy);
    RunObeys(Stepper(id, policy), id, InputsFor(snapshots, id), policy);
  }

  ghost predicate NamesItsRun(e: AlertEvent, run: seq<Observation>, policy: Policy) {
    e.Firing? && |run| > 0 && |run| >= Threshold(policy) && e.since == run[0].at && e.level == run[|run| - 1].level
  }

  lemma StepNamesItsRun(id: Id, inputs: seq<Input>, input: Input, policy: Policy, prior: Option<RuleState>, e: AlertEvent)
    requires ForId(id, inputs) && prior == RunOf(Stepper(id, policy), inputs).state
    requires e in StepOf(id, prior, input, policy).events && e.Firing?
    ensures NamesItsRun(e, BadRun(inputs + [input]), policy)
  {
    FiringSince(id, inputs, input, policy, prior);
    StepEmitsOne(id, prior, input, policy, e);
  }

  // Every firing of a run names the first observation of its condition's unbroken bad run, and that run
  // is at least as long as the hysteresis.
  lemma RunFiresSince(snapshots: seq<Snapshot>, last: Snapshot, policy: Policy, e: AlertEvent)
    requires AllUnique(snapshots) && UniqueKeys(last)
    requires e in Evaluate(last, RunAll(snapshots, policy).rules, policy).events && e.Firing?
    ensures NamesItsRun(e, BadRun(InputsFor(snapshots + [last], e.id)), policy)
  {
    RunProjects(snapshots, policy, e.id);
    InputsAreFor(snapshots, e.id);
    assert InputsFor(snapshots + [last], e.id) == InputsFor(snapshots, e.id) + [InputFor(last, e.id)];
    LastFiresSince(last, RunAll(snapshots, policy).rules, policy, e, InputsFor(snapshots, e.id));
  }

  lemma LastFiresSince(last: Snapshot, rules: Rules, policy: Policy, e: AlertEvent, inputs: seq<Input>)
    requires UniqueKeys(last) && OneEach(rules) && ForId(e.id, inputs)
    requires Get(rules, e.id) == RunOf(Stepper(e.id, policy), inputs).state
    requires e in Evaluate(last, rules, policy).events && e.Firing?
    ensures NamesItsRun(e, BadRun(inputs + [InputFor(last, e.id)]), policy)
  {
    KeysMakeIds(last);
    EvaluateProjects(last, rules, policy, e.id);
    var own := Filter(IsFor(e.id), Evaluate(last, rules, policy).events);
    assert e in own;
    StepNamesItsRun(e.id, inputs, InputFor(last, e.id), policy, Get(rules, e.id), e);
  }

  lemma StepEmitsOne(id: Id, prior: Option<RuleState>, input: Input, policy: Policy, e: AlertEvent)
    requires e in StepOf(id, prior, input, policy).events
    ensures StepOf(id, prior, input, policy).events == [e]
  {
  }

  // ---------------------------------------------------------------- what snapshots send

  // What a snapshot tells a condition.
  ghost predicate Tells(snapshot: Snapshot, id: Id, input: Input) {
    match id
    case Cycle => input == Seen(Observation(Cycle, snapshot.cycle, snapshot.cycleAt), snapshot.at)
    case SourceKey(key) =>
      if exists i :: 0 <= i < |snapshot.sources| && snapshot.sources[i].0 == key then
        exists i :: && 0 <= i < |snapshot.sources| && snapshot.sources[i].0 == key
                    && input == Seen(Observation(id, snapshot.sources[i].1, snapshot.sources[i].2), snapshot.at)
      else input == Gone(snapshot.at)
  }

  lemma {:induction false} ObservationIs(observations: seq<Observation>, i: nat)
    requires UniqueObservations(observations) && i < |observations|
    ensures ObservationOf(observations, observations[i].id) == Some(observations[i])
  {
    var n := |observations| - 1;
    if i < n {
      ObservationIs(observations[..n], i);
      assert observations[..n][i] == observations[i];
    }
  }

  lemma InputTells(snapshot: Snapshot, id: Id)
    requires UniqueKeys(snapshot)
    ensures Tells(snapshot, id, InputFor(snapshot, id))
  {
    var all := Observations(snapshot);
    KeysMakeIds(snapshot);
    ObservationMeans(all, id);
    if id.Cycle? {
      ObservationIs(all, 0);
    } else if exists i :: 0 <= i < |snapshot.sources| && snapshot.sources[i].0 == id.key {
      var i :| 0 <= i < |snapshot.sources| && snapshot.sources[i].0 == id.key;
      assert all[i + 1] == Observation(id, snapshot.sources[i].1, snapshot.sources[i].2);
      ObservationIs(all, i + 1);
    } else {
      forall i | 0 <= i < |all| ensures all[i].id != id {
        assert i > 0 ==> all[i].id == SourceKey(snapshot.sources[i - 1].0);
      }
    }
  }

  // What a run of snapshots tells a condition.
  ghost predicate TellAll(snapshots: seq<Snapshot>, id: Id, inputs: seq<Input>) {
    |inputs| == |snapshots| && forall i :: 0 <= i < |inputs| ==> Tells(snapshots[i], id, inputs[i])
  }

  lemma InputsTell(snapshots: seq<Snapshot>, id: Id)
    requires AllUnique(snapshots)
    ensures TellAll(snapshots, id, InputsFor(snapshots, id))
  {
    forall i | 0 <= i < |snapshots| ensures Tells(snapshots[i], id, InputsFor(snapshots, id)[i]) {
      InputTells(snapshots[i], id);
    }
  }

  // Over any run of snapshots, the next one sends each condition exactly what is due for what they tell of it.
  lemma SnapshotSends(snapshots: seq<Snapshot>, last: Snapshot, policy: Policy, id: Id, all: seq<Snapshot>)
    returns (inputs: seq<Input>, input: Input, sent: seq<AlertEvent>)
    requires AllUnique(all) && all == snapshots + [last]
    ensures TellAll(snapshots, id, inputs) && Tells(last, id, input)
    ensures Filter(IsFor(id), RunAll(all, policy).events) == Filter(IsFor(id), RunAll(snapshots, policy).events) + sent
    ensures SendsExactly(id, inputs, Filter(IsFor(id), RunAll(snapshots, policy).events), input, sent, policy)
  {
    SnapshotSplit(snapshots, last, id, all);
    inputs, input := InputsFor(snapshots, id), InputFor(last, id);
    InputsTell(snapshots, id);
    InputTells(last, id);
    InputsAreFor(all, id);
    sent := RunSends(id, inputs, input, policy, InputsFor(all, id));
    RunProjects(snapshots, policy, id);
    RunProjects(all, policy, id);
  }

  lemma SnapshotSplit(snapshots: seq<Snapshot>, last: Snapshot, id: Id, all: seq<Snapshot>)
    requires AllUnique(all) && all == snapshots + [last]
    ensures AllUnique(snapshots) && UniqueKeys(last)
    ensures InputsFor(all, id) == InputsFor(snapshots, id) + [InputFor(last, id)]
  {
    assert forall i :: 0 <= i < |snapshots| ==> snapshots[i] == all[i];
    assert last == all[|snapshots|];
  }
}
