// Health alerts: one rule advanced by one observation, one evaluation of a snapshot, and whole runs.

module Alerts {
  import opened Lines
  import opened Sequences
  import opened Tables

  datatype Level = Healthy | Degraded | Down

  datatype Severity = Info | Warning | Critical

  datatype Policy = Policy(minSeverity: Severity, renotifyMs: int, hysteresis: int)

  datatype Id = Cycle | SourceKey(key: string)

  datatype RuleState = RuleState(
    level: Level, sinceFirstBad: Option<int>, badStreak: nat, active: bool, notified: bool,
    notifiedSeverity: Option<Severity>, notifiedAt: Option<int>)

  datatype AlertEvent =
    | Firing(id: Id, severity: Severity, level: Level, previous: Option<Level>, since: int, at: int)
    | Resolved(id: Id, severity: Severity, previousLevel: Level, since: int, at: int)

  datatype Observation = Observation(id: Id, level: Level, at: int)

  function RankOf(s: Severity): nat {
    match s
    case Info => 0
    case Warning => 1
    case Critical => 2
  }

  function SeverityOf(level: Level): Severity {
    if level == Down then Critical else Warning
  }

  function Threshold(policy: Policy): int {
    if policy.hysteresis < 1 then 1 else policy.hysteresis
  }

  // ---------------------------------------------------------------- one rule

  function ResolvedEvent(id: Id, prior: RuleState, now: int): AlertEvent {
    var since := if prior.sinceFirstBad.Some? then prior.sinceFirstBad.value else now;
    Resolved(id, SeverityOf(prior.level), prior.level, since, now)
  }

  datatype Advanced = Advanced(state: RuleState, events: seq<AlertEvent>)

  function IsActive(prior: Option<RuleState>): bool {
    prior.Some? && prior.value.active
  }

  function IsNotified(prior: Option<RuleState>): bool {
    prior.Some? && prior.value.notified
  }

  // A firing condition that worsened since it was last notified.
  predicate Escalated(prior: Option<RuleState>, severity: Severity) {
    && IsNotified(prior) && prior.value.notifiedSeverity.Some?
    && RankOf(severity) > RankOf(prior.value.notifiedSeverity.value)
  }

  // Never notified, or notified long enough ago.
  predicate Due(prior: Option<RuleState>, policy: Policy, now: int) {
    || !IsNotified(prior)
    || (policy.renotifyMs > 0 && prior.value.notifiedAt.Some? && now - prior.value.notifiedAt.value >= policy.renotifyMs)
  }

  function Streak(o: Observation, prior: Option<RuleState>): nat {
    if o.level == Healthy then 0 else 1 + if prior.Some? then prior.value.badStreak else 0
  }

  function FirstBad(o: Observation, prior: Option<RuleState>): Option<int> {
    if o.level == Healthy then None
    else if prior.Some? && prior.value.sinceFirstBad.Some? then prior.value.sinceFirstBad
    else Some(o.at)
  }

  predicate Notifies(o: Observation, prior: Option<RuleState>, policy: Policy, now: int) {
    var severity := SeverityOf(o.level);
    && RankOf(severity) >= RankOf(policy.minSeverity)
    && (!IsActive(prior) || Escalated(prior, severity) || Due(prior, policy, now))
  }

  function AdvanceRule(o: Observation, prior: Option<RuleState>, policy: Policy, now: int): Advanced {
    var streak, first := Streak(o, prior), FirstBad(o, prior);
    if o.level == Healthy || streak < Threshold(policy) then
      Advanced(RuleState(o.level, first, streak, false, false, None, None),
               if IsActive(prior) && prior.value.notified then [ResolvedEvent(o.id, prior.value, now)] else [])
    else if Notifies(o, prior, policy, now) then
      var severity := SeverityOf(o.level);
      var previous := if prior.Some? then Some(prior.value.level) else None;
      var since := if first.Some? then first.value else o.at;
      Advanced(RuleState(o.level, first, streak, true, true, Some(severity), Some(now)),
               [Firing(o.id, severity, o.level, previous, since, now)])
    else if IsActive(prior) then
      Advanced(RuleState(o.level, first, streak, true, prior.value.notified, prior.value.notifiedSeverity,
                         prior.value.notifiedAt), [])
    else
      Advanced(RuleState(o.level, first, streak, true, false, None, None), [])
  }

  // ---------------------------------------------------------------- one evaluation

  type Rules = Table<Id, RuleState>

  // What an entry emits.
  type Emits = Entry<Id, RuleState> -> seq<AlertEvent>

  datatype Snapshot = Snapshot(cycle: Level, cycleAt: int, sources: seq<(string, Level, int)>, at: int)

  function Observe(source: (string, Level, int)): Observation {
    Observation(SourceKey(source.0), source.1, source.2)
  }

  function Observations(snapshot: Snapshot): seq<Observation> {
    [Observation(Cycle, snapshot.cycle, snapshot.cycleAt)] + Map(Observe, snapshot.sources)
  }

  datatype Evaluation = Evaluation(events: seq<AlertEvent>, rules: Rules)

  function AdvanceAll(observations: seq<Observation>, previous: Rules, policy: Policy, now: int): Evaluation {
    if |observations| == 0 then Evaluation([], [])
    else
      var n := |observations| - 1;
      var before := AdvanceAll(observations[..n], previous, policy, now);
      var o := observations[n];
      var advanced := AdvanceRule(o, Get(previous, o.id), policy, now);
      Evaluation(before.events + advanced.events, Put(before.rules, o.id, advanced.state))
  }

  predicate Sees(observations: seq<Observation>, id: Id) {
    exists i :: 0 <= i < |observations| && observations[i].id == id
  }

  // Conditions that were firing and are no longer reported.
  function Disappeared(observations: seq<Observation>, now: int): Emits {
    (e: Entry<Id, RuleState>) =>
      if Sees(observations, e.key) || !e.value.notified then [] else [ResolvedEvent(e.key, e.value, now)]
  }

  function Evaluate(snapshot: Snapshot, previous: Rules, policy: Policy): Evaluation {
    var observations := Observations(snapshot);
    var advanced := AdvanceAll(observations, previous, policy, snapshot.at);
    Evaluation(advanced.events + FlatMap(Disappeared(observations, snapshot.at), previous), advanced.rules)
  }

  method AdvanceEach(observations: seq<Observation>, previous: Rules, policy: Policy, now: int)
    returns (events: seq<AlertEvent>, rules: Rules)
    ensures Evaluation(events, rules) == AdvanceAll(observations, previous, policy, now)
  {
    events, rules := [], [];
    for i := 0 to |observations|
      invariant Evaluation(events, rules) == AdvanceAll(observations[..i], previous, policy, now)
    {
      assert observations[..i + 1][..i] == observations[..i];
      var o := observations[i];
      var advanced := AdvanceRule(o, Get(previous, o.id), policy, now);
      events, rules := events + advanced.events, Put(rules, o.id, advanced.state);
    }
    assert observations[..|observations|] == observations;
  }

  method AppendAll(gone: Emits, previous: Rules) returns (events: seq<AlertEvent>)
    ensures events == FlatMap(gone, previous)
  {
    events := [];
    for i := 0 to |previous|
      invariant events == FlatMap(gone, previous[..i])
    {
      assert previous[..i + 1][..i] == previous[..i];
      events := events + gone(previous[i]);
    }
    assert previous[..|previous|] == previous;
  }

  method EvaluateHealthAlerts(snapshot: Snapshot, previous: Rules, policy: Policy) returns (r: Evaluation)
    ensures r == Evaluate(snapshot, previous, policy)
  {
    var observations := Observations(snapshot);
    var events, rules := AdvanceEach(observations, previous, policy, snapshot.at);
    var closed := AppendAll(Disappeared(observations, snapshot.at), previous);
    r := Evaluation(events + closed, rules);
  }

  // A whole run: each snapshot is evaluated against the rules the one before left.
  function RunAll(snapshots: seq<Snapshot>, policy: Policy): Evaluation {
    if |snapshots| == 0 then Evaluation([], [])
    else
      var n := |snapshots| - 1;
      var before := RunAll(snapshots[..n], policy);
      var next := Evaluate(snapshots[n], before.rules, policy);
      Evaluation(before.events + next.events, next.rules)
  }

  // ---------------------------------------------------------------- one id over a run

  // What one evaluation tells one condition: an observation of it, or that it is gone.
  datatype Input = Seen(observation: Observation, now: int) | Gone(now: int)

  datatype Progress = Progress(state: Option<RuleState>, events: seq<AlertEvent>)

  function StepOf(id: Id, prior: Option<RuleState>, input: Input, policy: Policy): Progress {
    match input
    case Seen(o, now) =>
      var advanced := AdvanceRule(o, prior, policy, now);
      Progress(Some(advanced.state), advanced.events)
    case Gone(now) =>
      Progress(None, if IsNotified(prior) then [ResolvedEvent(id, prior.value, now)] else [])
  }

  type Step = (Option<RuleState>, Input) -> Progress

  function Stepper(id: Id, policy: Policy): Step {
    (prior: Option<RuleState>, input: Input) => StepOf(id, prior, input, policy)
  }

  function RunOf(step: Step, inputs: seq<Input>): Progress {
    if |inputs| == 0 then Progress(None, [])
    else
      var n := |inputs| - 1;
      var before := RunOf(step, inputs[..n]);
      var next := step(before.state, inputs[n]);
      Progress(next.state, before.events + next.events)
  }

  // The unbroken run of unhealthy observations that the inputs end with.
  function BadRun(inputs: seq<Input>): (r: seq<Observation>)
    ensures forall i :: 0 <= i < |r| ==> r[i].level != Healthy
  {
    if |inputs| == 0 then []
    else
      var last := inputs[|inputs| - 1];
      if last.Gone? || last.observation.level == Healthy then []
      else BadRun(inputs[..|inputs| - 1]) + [last.observation]
  }
}
