// The false-arbitrage detector: structural checks of a leg set against every model state.

module Coverage {
  import opened Lines
  import opened Settlement
  import opened Coordinates
  import opened Grouping
  import opened Sequences
  import opened StateModel

  datatype Leg = Leg(id: string, selection: Selection, odds: real)

  datatype Metric = Metric(family: Family, period: Period, participant: Option<Participant>) | NoMetric

  datatype Overlap =
    | SameMetric(state: OutcomeState, metric: Metric, legIds: seq<string>)
    | CrossMetric(state: OutcomeState, metrics: seq<Metric>, legIds: seq<string>)

  datatype RejectionReason = InvalidMarket | UnknownSettlement | NonExclusive | BothLossState | NonExhaustive

  datatype Verdict = Verdict(reason: RejectionReason, state: Option<OutcomeState>, legIds: seq<string>, count: Option<nat>)

  datatype Report = Report(
    covered: bool,
    states: seq<OutcomeState>,
    unknown: seq<Unsettled>,
    overlaps: seq<Overlap>,
    gaps: seq<OutcomeState>,
    rejections: seq<Verdict>,
    exclusive: bool,
    exhaustive: bool)

  function SelectionsOf(legs: seq<Leg>): seq<Selection> {
    Map((leg: Leg) => leg.selection, legs)
  }

  function OrElse(explicit: Option<int>, other: int): Option<int> {
    if explicit.Some? then explicit else Some(other)
  }

  function ModelOptions(selections: seq<Selection>, options: Options): Options {
    OptionsFor(MaxBound(selections) + 1, options)
  }

  function OptionsFor(required: nat, options: Options): Options {
    Options(OrElse(options.maxGoals, Min(Max(required, 2), 40)),
            OrElse(options.maxCorners, Min(Max(required + 10, 2), 60)),
            OrElse(options.maxCards, Min(Max(required, 2), 40)))
  }

  // ---------------------------------------------------------------- rejections

  function FirstWith(rejections: seq<Verdict>, reason: RejectionReason): (i: nat)
    ensures i <= |rejections| && (i < |rejections| ==> rejections[i].reason == reason)
    ensures forall k :: 0 <= k < i ==> rejections[k].reason != reason
  {
    if |rejections| == 0 || rejections[0].reason == reason then 0 else 1 + FirstWith(rejections[1..], reason)
  }

  function CountOf(v: Verdict): nat {
    if v.count.Some? then v.count.value else 1
  }

  // One entry a reason: the first verdict is kept and later ones are counted on it.
  function PushRejection(rejections: seq<Verdict>, v: Verdict): seq<Verdict> {
    var i := FirstWith(rejections, v.reason);
    if i == |rejections| then rejections + [v.(count := Some(1))]
    else rejections[i := rejections[i].(count := Some(CountOf(rejections[i]) + 1))]
  }

  function PushAll(rejections: seq<Verdict>, vs: seq<Verdict>): seq<Verdict> {
    Fold(PushRejection, rejections, vs)
  }

  // How often a reason was pushed.
  function Tally(rejections: seq<Verdict>, reason: RejectionReason): nat {
    if |rejections| == 0 then 0
    else
      var n := |rejections| - 1;
      Tally(rejections[..n], reason) + if rejections[n].reason == reason then CountOf(rejections[n]) else 0
  }

  function HasReason(reason: RejectionReason): Verdict -> bool {
    (v: Verdict) => v.reason == reason
  }

  lemma {:induction false} TallyUpdate(rejections: seq<Verdict>, i: nat, count: nat, reason: RejectionReason)
    requires i < |rejections| && count == CountOf(rejections[i]) + 1
    ensures Tally(rejections[i := rejections[i].(count := Some(count))], reason)
         == Tally(rejections, reason) + if rejections[i].reason == reason then 1 else 0
  {
    var n := |rejections| - 1;
    var after := rejections[i := rejections[i].(count := Some(count))];
    if i < n {
      assert after[..n] == rejections[..n][i := rejections[i].(count := Some(count))];
      TallyUpdate(rejections[..n], i, count, reason);
    } else {
      assert after[..n] == rejections[..n];
    }
  }

  lemma PushTally(rejections: seq<Verdict>, v: Verdict, reason: RejectionReason)
    ensures Tally(PushRejection(rejections, v), reason)
         == Tally(rejections, reason) + if v.reason == reason then 1 else 0
  {
    var i := FirstWith(rejections, v.reason);
    if i == |rejections| {
      assert PushRejection(rejections, v)[..|rejections|] == rejections;
    } else {
      TallyUpdate(rejections, i, CountOf(rejections[i]) + 1, reason);
    }
  }

  // Counting on one entry a reason loses nothing: each tally is the number of verdicts pushed.
  lemma {:induction false} PushAllTally(rejections: seq<Verdict>, vs: seq<Verdict>, reason: RejectionReason)
    ensures Tally(PushAll(rejections, vs), reason) == Tally(rejections, reason) + Count(HasReason(reason), vs)
    ensures PushAll(rejections, vs) == [] <==> rejections == [] && vs == []
  {
    if |vs| > 0 {
      var n := |vs| - 1;
      PushAllTally(rejections, vs[..n], reason);
      PushTally(PushAll(rejections, vs[..n]), vs[n], reason);
    }
  }

  // ---------------------------------------------------------------- one state

  predicate Winning(r: SettlementResult) {
    r == FullWin || r == HalfWin
  }

  // The places of the results that satisfy f, in order.
  function Places(f: SettlementResult -> bool, vector: seq<SettlementResult>): (r: seq<nat>)
    ensures forall a :: 0 <= a < |r| ==> r[a] < |vector| && f(vector[r[a]])
    ensures forall a, b :: 0 <= a < b < |r| ==> r[a] < r[b]
  {
    if |vector| == 0 then []
    else
      var n := |vector| - 1;
      Places(f, vector[..n]) + if f(vector[n]) then [n] else []
  }

  function Winners(vector: seq<SettlementResult>): seq<nat> {
    Places(Winning, vector)
  }

  function Losers(vector: seq<SettlementResult>): seq<nat> {
    Places((r: SettlementResult) => r == FullLoss, vector)
  }

  function MetricOf(s: Selection): Metric {
    Metric(s.family, s.period, s.participant)
  }

  function MetricAt(legs: seq<Leg>): nat -> Metric {
    (i: nat) => if i < |legs| then MetricOf(legs[i].selection) else NoMetric
  }

  function IdsAt(legs: seq<Leg>, places: seq<nat>): seq<string> {
    Map((i: nat) => if i < |legs| then legs[i].id else "#", places)
  }

  type MetricGroup = Group<Metric, nat>

  function MetricGroups(legs: seq<Leg>, state: OutcomeState): seq<MetricGroup> {
    Groups(MetricAt(legs), Winners(state.vector))
  }

  // Groups of winners on one metric.
  function Clashes(legs: seq<Leg>, state: OutcomeState): seq<MetricGroup> {
    if |Winners(state.vector)| < 2 then []
    else Filter((g: MetricGroup) => |g.items| >= 2, MetricGroups(legs, state))
  }

  function ClashOverlaps(legs: seq<Leg>, state: OutcomeState): seq<Overlap> {
    Map((g: MetricGroup) => SameMetric(state, g.key, IdsAt(legs, g.items)), Clashes(legs, state))
  }

  function CrossOverlaps(legs: seq<Leg>, state: OutcomeState): seq<Overlap> {
    var winners := Winners(state.vector);
    var groups := MetricGroups(legs, state);
    if |winners| >= 2 && |groups| > 1 then
      [CrossMetric(state, Map((g: MetricGroup) => g.key, groups), IdsAt(legs, winners))]
    else []
  }

  function StateOverlaps(legs: seq<Leg>, state: OutcomeState): seq<Overlap> {
    ClashOverlaps(legs, state) + CrossOverlaps(legs, state)
  }

  predicate IsGap(state: OutcomeState) {
    |Winners(state.vector)| == 0
  }

  predicate LosesAll(legs: seq<Leg>, state: OutcomeState) {
    |Losers(state.vector)| == |legs| && |legs| >= 2
  }

  function ClashVerdicts(legs: seq<Leg>, state: OutcomeState): seq<Verdict> {
    Map((g: MetricGroup) => Verdict(NonExclusive, Some(state), IdsAt(legs, g.items), None), Clashes(legs, state))
  }

  function GapVerdicts(legs: seq<Leg>, state: OutcomeState): seq<Verdict> {
    if !IsGap(state) then []
    else
      var reason := if LosesAll(legs, state) then BothLossState else NonExhaustive;
      [Verdict(reason, Some(state), Map((leg: Leg) => leg.id, legs), None)]
  }

  function StateVerdicts(legs: seq<Leg>, state: OutcomeState): seq<Verdict> {
    ClashVerdicts(legs, state) + GapVerdicts(legs, state)
  }

  // ---------------------------------------------------------------- all states

  function OverlapsOf(legs: seq<Leg>): OutcomeState -> seq<Overlap> {
    (state: OutcomeState) => StateOverlaps(legs, state)
  }

  function VerdictsOf(legs: seq<Leg>): OutcomeState -> seq<Verdict> {
    (state: OutcomeState) => StateVerdicts(legs, state)
  }

  predicate IsSameMetric(overlap: Overlap) {
    overlap.SameMetric?
  }

  function ReviewWith(overlapsOf: OutcomeState -> seq<Overlap>, verdictsOf: OutcomeState -> seq<Verdict>,
      isGap: OutcomeState -> bool, states: seq<OutcomeState>): Report {
    var overlaps := FlatMap(overlapsOf, states);
    var gaps := Filter(isGap, states);
    var rejections := PushAll([], FlatMap(verdictsOf, states));
    var exclusive := !(exists i :: 0 <= i < |overlaps| && IsSameMetric(overlaps[i]));
    Report(rejections == [], states, [], overlaps, gaps, rejections, exclusive, gaps == [])
  }

  function Review(legs: seq<Leg>, states: seq<OutcomeState>): Report {
    ReviewWith(OverlapsOf(legs), VerdictsOf(legs), IsGap, states)
  }

  function Rejected(rejections: seq<Verdict>, states: seq<OutcomeState>, unknown: seq<Unsettled>, clean: bool): Report {
    Report(false, states, unknown, [], [], rejections, clean, clean)
  }

  function SelectionGroups(legs: seq<Leg>): seq<Group<Selection, Leg>> {
    Groups((leg: Leg) => leg.selection, legs)
  }

  // Legs that repeat a selection.
  function Duplicates(legs: seq<Leg>): seq<Group<Selection, Leg>> {
    Filter((g: Group<Selection, Leg>) => |g.items| > 1, SelectionGroups(legs))
  }

  method ReviewStates(overlapsOf: OutcomeState -> seq<Overlap>, verdictsOf: OutcomeState -> seq<Verdict>,
      isGap: OutcomeState -> bool, states: seq<OutcomeState>) returns (report: Report)
    ensures report == ReviewWith(overlapsOf, verdictsOf, isGap, states)
  {
    var overlaps, gaps: seq<OutcomeState>, rejections := [], [], [];
    for i := 0 to |states|
      invariant overlaps == FlatMap(overlapsOf, states[..i]) && gaps == Filter(isGap, states[..i])
      invariant rejections == PushAll([], FlatMap(verdictsOf, states[..i]))
    {
      var state := states[i];
      assert states[..i + 1][..i] == states[..i];
      FoldSplit(PushRejection, [], FlatMap(verdictsOf, states[..i]), verdictsOf(state));
      overlaps := overlaps + overlapsOf(state);
      gaps := gaps + if isGap(state) then [state] else [];
      rejections := PushAll(rejections, verdictsOf(state));
    }
    assert states[..|states|] == states;
    var exclusive := !(exists i :: 0 <= i < |overlaps| && IsSameMetric(overlaps[i]));
    report := Report(rejections == [], states, [], overlaps, gaps, rejections, exclusive, gaps == []);
  }

  function DuplicateVerdicts(legs: seq<Leg>): (r: seq<Verdict>)
    ensures |r| == |Duplicates(legs)| && forall v :: v in r ==> v.reason == InvalidMarket
  {
    Map((g: Group<Selection, Leg>) => Verdict(InvalidMarket, None, Map((leg: Leg) => leg.id, g.items), None),
        Duplicates(legs))
  }

  method DetectFalseArb(rule: Rule, legs: seq<Leg>, options: Options) returns (report: Report)
    requires NeverThrows(rule) && Local(rule)
    ensures IsReport(rule, legs, options, report)
  {
    if |legs| == 0 {
      return Rejected([Verdict(InvalidMarket, None, [], None)], [], [], true);
    }
    var duplicates := DuplicateVerdicts(legs);
    if |duplicates| > 0 {
      return Rejected(duplicates, [], [], true);
    }
    var selections := SelectionsOf(legs);
    var model := BuildStateModel(rule, selections, ModelOptions(selections, options));
    if |model.unknown| > 0 {
      var places := Map((u: Unsettled) => u.index, model.unknown);
      return Rejected([Verdict(UnknownSettlement, None, IdsAt(legs, places), None)], model.states, model.unknown, false);
    }
    report := ReviewStates(OverlapsOf(legs), VerdictsOf(legs), IsGap, model.states);
  }

  // What the detector reports: the first structural fault, or the review of every model state.
  ghost predicate IsReport(rule: Rule, legs: seq<Leg>, options: Options, report: Report)
    requires NeverThrows(rule)
  {
    var selections := SelectionsOf(legs);
    if |legs| == 0 || |Duplicates(legs)| > 0 then
      !report.covered && report.rejections != [] && forall v :: v in report.rejections ==> v.reason == InvalidMarket
    else if |Unknowns(rule, selections)| > 0 then
      !report.covered && report.unknown == Unknowns(rule, selections)
      && |report.rejections| == 1 && report.rejections[0].reason == UnknownSettlement
    else
      var known := Known(rule, selections);
      && ModelOf(rule, known, LimitsOf(known, ModelOptions(selections, options)), report.states)
      && report == Review(legs, report.states)
  }
}
