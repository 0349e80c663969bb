// What a scan reports: an arbitrage is reported exactly when there is one.

module ScanTheorems {
  import opened Lines
  import opened Vectors
  import opened SimplexTableau
  import opened Simplex
  import opened Maximin
  import opened MaximinTheorems
  import opened Settlement
  import opened Coordinates
  import opened Sequences
  import opened StateModel
  import opened ScoreSpace
  import opened Coverage
  import opened CoverageTheorems
  import opened Optimizer
  import opened Candidates
  import opened CandidateTheorems
  import opened Scan

  // ---------------------------------------------------------------- every ARB is a true arbitrage

  // What one unit of stake brings back.
  ghost function BringsBack(r: SettlementResult, odds: real): real {
    match r
    case FullWin => odds
    case HalfWin => 0.5 * odds + 0.5
    case Push => 1.0
    case Void => 1.0
    case HalfLoss => 0.5
    case FullLoss => 0.0
  }

  // What the stakes on the first n legs bring back.
  ghost function Repaid(results: seq<SettlementResult>, legs: seq<Leg>, stakes: seq<real>, n: nat): real
    requires n <= |results| && n <= |legs| && n <= |stakes|
  {
    if n == 0 then 0.0
    else Repaid(results, legs, stakes, n - 1) + BringsBack(results[n - 1], legs[n - 1].odds) * stakes[n - 1]
  }

  // What the stakes return at a match.
  ghost function RealReturn(legs: seq<Leg>, stakes: seq<real>, m: MatchState): real
    requires |stakes| == |legs| && AllSettled(Vector(Settle, SelectionsOf(legs), m))
  {
    Repaid(Values(Vector(Settle, SelectionsOf(legs), m)), legs, stakes, |legs|)
  }

  lemma {:induction false} RepaidIsDot(results: seq<SettlementResult>, legs: seq<Leg>, stakes: seq<real>, n: nat)
    requires |results| == |legs| == |stakes| && n <= |legs|
    ensures Repaid(results, legs, stakes, n) == Dot(MultiplierRow(results, legs), stakes, n)
  {
    if n > 0 {
      RepaidIsDot(results, legs, stakes, n - 1);
      assert MultiplierRow(results, legs)[n - 1] == BringsBack(results[n - 1], legs[n - 1].odds);
    }
  }

  lemma AllSettledAt(legs: seq<Leg>, m: MatchState)
    requires AllSettle(legs) && RealMatch(m)
    ensures AllSettled(Vector(Settle, SelectionsOf(legs), m))
  {
    forall i | 0 <= i < |legs| ensures Vector(Settle, SelectionsOf(legs), m)[i].Some? {
      assert AlwaysSettles(legs[i].selection);
    }
  }

  // A plan's return at a state whose vector the match settles to.
  lemma ReturnAtState(states: seq<OutcomeState>, legs: seq<Leg>, stakes: seq<real>, j: nat, m: MatchState)
    requires AlignedStates(states, legs) && j < |states| && |stakes| == |legs|
    requires SettlesTo(SelectionsOf(legs), m, states[j].vector)
    ensures RealReturn(legs, stakes, m) == Dot(MultiplierMatrix(states, legs)[j], stakes, |legs|)
  {
    RepaidIsDot(states[j].vector, legs, stakes, |legs|);
  }

  lemma PlanReturns(states: seq<OutcomeState>, legs: seq<Leg>, totalStake: real, s: Settings, plan: StakePlan, j: nat)
    requires Sensible(s) && Optimize(states, legs, totalStake, s) == Planned(plan) && j < |states|
    ensures AlignedStates(states, legs) && |plan.stakes| == |legs|
    ensures NonNegative(plan.stakes) && Sum(plan.stakes, |legs|) <= totalStake
    ensures plan.minReturn <= Dot(MultiplierMatrix(states, legs)[j], plan.stakes, |legs|)
    ensures plan.isArb <==> plan.minReturn > totalStake + EPS
  {
    var matrix := MultiplierMatrix(states, legs);
    var fractions := Fractions(matrix, |legs|, s).value;
    StakesAddUp(matrix, fractions, totalStake, plan);
    var i := MinimumIsLeast(matrix, fractions, totalStake, plan);
  }

  // A finished match of a covered leg set settles to some state's vector.
  lemma MatchHasState(legs: seq<Leg>, selections: seq<Selection>, options: Options, limits: Limits, report: Report,
      period: Period, margins: bool, m: MatchState) returns (j: nat)
    requires NeverThrows(Settle) && IsReport(Settle, legs, options, report) && report.covered
    requires selections == SelectionsOf(legs) && limits == LimitsOf(selections, ModelOptions(selections, options))
    requires OneShape(selections, period, margins) && Roomy(selections, SelectionBound, limits) && RealMatch(m)
    ensures AllSettle(legs) && AllSettled(Vector(Settle, selections, m))
    ensures j < |report.states| && SettlesTo(selections, m, report.states[j].vector)
  {
    CoveredMeans(legs, selections, options, limits, report, period, margins);
    AllSettledAt(legs, m);
    UnknownsMean(legs);
    InScopeAll(legs);
    DuplicatesMean(legs);
    var v := Values(Vector(Settle, selections, m));
    RealIsState(selections, limits, period, margins, report.states, m, v);
    j :| 0 <= j < |report.states| && report.states[j].vector == v;
  }

  lemma ArbShape(candidate: Candidate, options: PruneOptions)
    requires Prune(candidate, options) == []
    ensures |candidate.legs| >= 2
    ensures OneShape(SelectionsOf(Map(LegOf, candidate.legs)), candidate.key.period,
                     OnMargin(candidate.legs[0].leg.selection.family))
  {
    PruneMeans(candidate, options);
    CompatibleIsOneShape(candidate.legs, candidate.key.period);
  }

  // An ARB verdict is a profit whatever the score: at every finished match, of any size, the
  // planned stakes return more than the total, and they never add up to more than the total. It
  // rests on no accuracy of the solver, only on the limits of the state model not being reached.
  lemma ArbIsTrue(candidate: Candidate, legs: seq<Leg>, selections: seq<Selection>, options: ScanOptions, limits: Limits,
      scan: CandidateScan, m: MatchState)
    requires NeverThrows(Settle) && Sensible(options.solver)
    requires IsScan(Settle, candidate, options, scan) && scan.status == Arb
    requires legs == Map(LegOf, candidate.legs) && selections == SelectionsOf(legs)
    requires limits == LimitsOf(selections, ModelOptions(selections, options.stateModel))
    requires Roomy(selections, SelectionBound, limits) && RealMatch(m)
    ensures scan.plan.Some? && |scan.plan.value.stakes| == |legs| && AllSettled(Vector(Settle, selections, m))
    ensures NonNegative(scan.plan.value.stakes)
    ensures RealReturn(legs, scan.plan.value.stakes, m) > TotalStake(options) + EPS
    ensures TotalStake(options) >= Sum(scan.plan.value.stakes, |legs|)
  {
    ArbParts(candidate, options, scan);
    ArbShape(candidate, options.prune);
    var report := scan.coverage.value;
    var j := MatchHasState(legs, selections, options.stateModel, limits, report, candidate.key.period,
                           OnMargin(candidate.legs[0].leg.selection.family), m);
    PlanProfits(report.states, legs, selections, TotalStake(options), options.solver, scan.plan.value, j, m);
  }

  lemma ArbParts(candidate: Candidate, options: ScanOptions, scan: CandidateScan)
    requires NeverThrows(Settle) && Sensible(options.solver)
    requires IsScan(Settle, candidate, options, scan) && scan.status == Arb
    ensures Prune(candidate, options.prune) == [] && scan.coverage.Some? && scan.plan.Some?
    ensures IsReport(Settle, Map(LegOf, candidate.legs), options.stateModel, scan.coverage.value) && scan.coverage.value.covered
    ensures PlanOf(candidate, options, scan.coverage.value) == Planned(scan.plan.value) && scan.plan.value.isArb
  {
  }

  // A plan that is an arbitrage profits at a match that settles to one of its states.
  lemma PlanProfits(states: seq<OutcomeState>, legs: seq<Leg>, selections: seq<Selection>, totalStake: real, s: Settings,
      plan: StakePlan, j: nat, m: MatchState)
    requires Sensible(s) && Optimize(states, legs, totalStake, s) == Planned(plan) && plan.isArb && j < |states|
    requires selections == SelectionsOf(legs) && AllSettled(Vector(Settle, selections, m))
    requires SettlesTo(selections, m, states[j].vector)
    ensures |plan.stakes| == |legs| && NonNegative(plan.stakes) && totalStake >= Sum(plan.stakes, |legs|)
    ensures RealReturn(legs, plan.stakes, m) > totalStake + EPS
  {
    PlanReturns(states, legs, totalStake, s, plan, j);
    ReturnAtState(states, legs, plan.stakes, j, m);
  }

  // The same without any override of the limits: it is enough that no line, scoreline or implicit
  // boundary reaches 40.
  lemma ArbIsTrueByDefault(candidate: Candidate, legs: seq<Leg>, options: ScanOptions, scan: CandidateScan, m: MatchState)
    requires NeverThrows(Settle) && Sensible(options.solver)
    requires IsScan(Settle, candidate, options, scan) && scan.status == Arb
    requires legs == Map(LegOf, candidate.legs) && options.stateModel == Options(None, None, None)
    requires MaxBound(SelectionsOf(legs)) < 40 && RealMatch(m)
    ensures scan.plan.Some? && |scan.plan.value.stakes| == |legs| && AllSettled(Vector(Settle, SelectionsOf(legs), m))
    ensures RealReturn(legs, scan.plan.value.stakes, m) > TotalStake(options) >= Sum(scan.plan.value.stakes, |legs|)
  {
    var selections := SelectionsOf(legs);
    var limits := LimitsOf(selections, ModelOptions(selections, options.stateModel));
    DefaultLimits(selections, MaxBound(selections), limits);
    ArbIsTrue(candidate, legs, selections, options, limits, scan, m);
  }

  // ---------------------------------------------------------------- the scan, with the real settlement

  // Some goalless state is there, so a covered leg set has a state.
  lemma CoveredHasStates(legs: seq<Leg>, options: Options, report: Report)
    requires NeverThrows(Settle) && IsReport(Settle, legs, options, report) && report.covered
    ensures |legs| > 0 && |report.states| > 0 && AlignedStates(report.states, legs)
  {
    var selections := SelectionsOf(legs);
    var known := Known(Settle, selections);
    var limits := LimitsOf(known, ModelOptions(selections, options));
    UnknownsMean(legs);
    InScopeAll(legs);
    var p := OriginOf(known);
    OriginInGrid(known, limits);
    SettlesByScore();
    GridIsReal(Settle, SettleScore, SelectionBound, known, limits, p);
    AllSettledAt(legs, RealPoint(p));
    AgreeingVectors(Settle, known, AsMatch(p), RealPoint(p));
    assert Reaches(Settle, known, report.states, p);
    StatesAligned(Settle, known, limits, legs, report.states);
  }

  lemma FailsOnlyWhen(states: seq<OutcomeState>, legs: seq<Leg>, totalStake: real, s: Settings, why: Failure)
    requires Sensible(s) && Optimize(states, legs, totalStake, s) == Failed(why)
    requires |legs| > 0 && |states| > 0 && AlignedStates(states, legs)
    ensures if totalStake <= 0.0 then why == BadStake else why == NotOptimal
  {
  }

  // The stakes of a scan return more than the total at every finished match, and stay within the total.
  ghost predicate ProfitsEverywhere(scan: CandidateScan, totalStake: real) {
    var legs := Map(LegOf, scan.candidate.legs);
    && scan.plan.Some? && |scan.plan.value.stakes| == |legs|
    && NonNegative(scan.plan.value.stakes) && Sum(scan.plan.value.stakes, |legs|) <= totalStake
    && forall m :: RealMatch(m) ==> ProfitsAt(legs, scan.plan.value.stakes, totalStake, m)
  }

  ghost predicate ProfitsAt(legs: seq<Leg>, stakes: seq<real>, totalStake: real, m: MatchState) {
    && |stakes| == |legs| && AllSettled(Vector(Settle, SelectionsOf(legs), m))
    && RealReturn(legs, stakes, m) > totalStake + EPS
  }

  // The state model's limits for these legs lie past every boundary.
  ghost predicate WithinLimits(candidate: Candidate, options: Options) {
    var selections := SelectionsOf(Map(LegOf, candidate.legs));
    Roomy(selections, SelectionBound, LimitsOf(selections, ModelOptions(selections, options)))
  }

  lemma ScanProfits(scan: CandidateScan, options: ScanOptions)
    requires NeverThrows(Settle) && Sensible(options.solver) && IsScan(Settle, scan.candidate, options, scan)
    requires scan.status == Arb && WithinLimits(scan.candidate, options.stateModel)
    ensures ProfitsEverywhere(scan, TotalStake(options))
  {
    var legs := Map(LegOf, scan.candidate.legs);
    var selections := SelectionsOf(legs);
    var limits := LimitsOf(selections, ModelOptions(selections, options.stateModel));
    assert RealMatch(PROBE);
    ArbIsTrue(scan.candidate, legs, selections, options, limits, scan, PROBE);
    forall m | RealMatch(m) ensures ProfitsAt(legs, scan.plan.value.stakes, TotalStake(options), m) {
      ArbIsTrue(scan.candidate, legs, selections, options, limits, scan, m);
    }
  }

  // The limits are not reached when they are not overridden and no boundary reaches 40.
  lemma WithinDefaultLimits(candidate: Candidate)
    requires MaxBound(SelectionsOf(Map(LegOf, candidate.legs))) < 40
    ensures WithinLimits(candidate, Options(None, None, None))
  {
    var selections := SelectionsOf(Map(LegOf, candidate.legs));
    DefaultLimits(selections, MaxBound(selections), LimitsOf(selections, ModelOptions(selections, Options(None, None, None))));
  }

  predicate NoBoundaryAt40(candidate: Candidate) {
    MaxBound(SelectionsOf(Map(LegOf, candidate.legs))) < 40
  }

  // ---------------------------------------------------------------- what a plan promises

  ghost predicate Returns(legs: seq<Leg>, stakes: seq<real>, m: MatchState, amount: real) {
    && |stakes| == |legs| && AllSettled(Vector(Settle, SelectionsOf(legs), m))
    && RealReturn(legs, stakes, m) == amount
  }

  ghost predicate ReturnsAtLeast(legs: seq<Leg>, stakes: seq<real>, m: MatchState, amount: real) {
    && |stakes| == |legs| && AllSettled(Vector(Settle, SelectionsOf(legs), m))
    && RealReturn(legs, stakes, m) >= amount
  }

  // The plan stakes no more than the total; the least it returns at any finished match, and does return at one,
  // is its minimum; and its profit is what that leaves over the total.
  ghost predicate KeepsItsWord(legs: seq<Leg>, plan: StakePlan, total: real) {
    && |plan.stakes| == |legs| && NonNegative(plan.stakes) && Sum(plan.stakes, |legs|) <= total && plan.totalStake == total
    && NeverLess(legs, plan) && OnceJust(legs, plan)
    && plan.guaranteedProfit == plan.minReturn - total && plan.roi * total == plan.guaranteedProfit
  }

  ghost predicate NeverLess(legs: seq<Leg>, plan: StakePlan) {
    forall m :: RealMatch(m) ==> ReturnsAtLeast(legs, plan.stakes, m, plan.minReturn)
  }

  ghost predicate OnceJust(legs: seq<Leg>, plan: StakePlan) {
    exists m :: RealMatch(m) && Returns(legs, plan.stakes, m, plan.minReturn)
  }

  lemma PlanWorth(states: seq<OutcomeState>, legs: seq<Leg>, total: real, s: Settings, plan: StakePlan) returns (j: nat)
    requires Sensible(s) && Optimize(states, legs, total, s) == Planned(plan)
    ensures total > 0.0 && AlignedStates(states, legs) && |plan.stakes| == |legs| && j < |states|
    ensures NonNegative(plan.stakes) && Sum(plan.stakes, |legs|) <= total && plan.totalStake == total
    ensures plan.minReturn == Dot(MultiplierMatrix(states, legs)[j], plan.stakes, |legs|)
    ensures plan.guaranteedProfit == plan.minReturn - total && plan.roi * total == plan.guaranteedProfit
    ensures plan.isArb <==> plan.minReturn > total + EPS
  {
    var matrix := MultiplierMatrix(states, legs);
    var fractions := Fractions(matrix, |legs|, s).value;
    PlanIsWorth(matrix, fractions, total, plan);
    j := MinimumIsLeast(matrix, fractions, total, plan);
  }

  lemma PlanIsWorth(matrix: seq<seq<real>>, fractions: seq<real>, total: real, plan: StakePlan)
    requires Rectangular(matrix, |fractions|) && |matrix| > 0 && total > 0.0 && NonNegative(fractions)
    requires plan == PlanFor(matrix, fractions, total)
    ensures |plan.stakes| == |fractions| && NonNegative(plan.stakes) && Sum(plan.stakes, |fractions|) <= total
    ensures plan.totalStake == total && plan.guaranteedProfit == plan.minReturn - total
    ensures plan.roi * total == plan.guaranteedProfit && (plan.isArb <==> plan.minReturn > total + EPS)
  {
    StakesAddUp(matrix, fractions, total, plan);
    ProfitIsReported(matrix, fractions, total, plan);
  }

  // A state comes from a finished match, at which stakes return what they do in the state.
  lemma StateIsReal(candidate: Candidate, options: ScanOptions, report: Report, legs: seq<Leg>, stakes: seq<real>, j: nat)
    returns (m: MatchState)
    requires NeverThrows(Settle) && legs == Map(LegOf, candidate.legs) && |stakes| == |legs|
    requires IsReport(Settle, legs, options.stateModel, report) && report.covered && j < |report.states|
    ensures RealMatch(m) && AlignedStates(report.states, legs)
    ensures Returns(legs, stakes, m, Dot(MultiplierMatrix(report.states, legs)[j], stakes, |legs|))
  {
    var selections := SelectionsOf(legs);
    CoveredHasStates(legs, options.stateModel, report);
    UnknownsMean(legs);
    InScopeAll(legs);
    m := StateMatch(selections, LimitsOf(selections, ModelOptions(selections, options.stateModel)), report.states, j);
    ReturnAtState(report.states, legs, stakes, j, m);
  }

  lemma StateMatch(selections: seq<Selection>, limits: Limits, states: seq<OutcomeState>, j: nat) returns (m: MatchState)
    requires AllInScope(selections) && ModelOf(Settle, selections, limits, states) && j < |states|
    ensures RealMatch(m) && SettlesTo(selections, m, states[j].vector)
  {
    StatesAreReal(selections, limits, states, states[j].vector);
    m :| RealMatch(m) && SettlesTo(selections, m, states[j].vector);
  }

  // The parts of a scan that reached the optimizer.
  lemma PlannedParts(candidate: Candidate, options: ScanOptions, scan: CandidateScan)
    requires NeverThrows(Settle) && Sensible(options.solver)
    requires IsScan(Settle, candidate, options, scan) && scan.plan.Some?
    ensures Prune(candidate, options.prune) == [] && scan.coverage.Some?
    ensures IsReport(Settle, Map(LegOf, candidate.legs), options.stateModel, scan.coverage.value) && scan.coverage.value.covered
    ensures PlanOf(candidate, options, scan.coverage.value) == Planned(scan.plan.value)
    ensures scan.status == (if scan.plan.value.isArb then Arb else NoArb)
  {
  }

  lemma ReturnsTheMinimum(candidate: Candidate, options: ScanOptions, report: Report, legs: seq<Leg>, plan: StakePlan, m: MatchState)
    requires NeverThrows(Settle) && Sensible(options.solver) && legs == Map(LegOf, candidate.legs)
    requires Prune(candidate, options.prune) == [] && WithinLimits(candidate, options.stateModel) && RealMatch(m)
    requires IsReport(Settle, legs, options.stateModel, report) && report.covered
    requires Optimize(report.states, legs, TotalStake(options), options.solver) == Planned(plan)
    ensures ReturnsAtLeast(legs, plan.stakes, m, plan.minReturn)
  {
    var selections := SelectionsOf(legs);
    ArbShape(candidate, options.prune);
    var j := MatchHasState(legs, selections, options.stateModel, LimitsOf(selections, ModelOptions(selections, options.stateModel)),
                           report, candidate.key.period, OnMargin(candidate.legs[0].leg.selection.family), m);
    PlanReturns(report.states, legs, TotalStake(options), options.solver, plan, j);
    ReturnAtState(report.states, legs, plan.stakes, j, m);
  }

  lemma WorstIsReal(candidate: Candidate, options: ScanOptions, report: Report, legs: seq<Leg>, plan: StakePlan)
    requires NeverThrows(Settle) && Sensible(options.solver) && legs == Map(LegOf, candidate.legs)
    requires IsReport(Settle, legs, options.stateModel, report) && report.covered
    requires Optimize(report.states, legs, TotalStake(options), options.solver) == Planned(plan)
    ensures OnceJust(legs, plan)
  {
    var j := PlanWorth(report.states, legs, TotalStake(options), options.solver, plan);
    var worst := StateIsReal(candidate, options, report, legs, plan.stakes, j);
    assert Returns(legs, plan.stakes, worst, plan.minReturn);
  }

  lemma NeverReturnsLess(candidate: Candidate, options: ScanOptions, report: Report, legs: seq<Leg>, plan: StakePlan)
    requires NeverThrows(Settle) && Sensible(options.solver) && legs == Map(LegOf, candidate.legs)
    requires Prune(candidate, options.prune) == [] && WithinLimits(candidate, options.stateModel)
    requires IsReport(Settle, legs, options.stateModel, report) && report.covered
    requires Optimize(report.states, legs, TotalStake(options), options.solver) == Planned(plan)
    ensures NeverLess(legs, plan)
  {
    forall m | RealMatch(m) ensures ReturnsAtLeast(legs, plan.stakes, m, plan.minReturn) {
      ReturnsTheMinimum(candidate, options, report, legs, plan, m);
    }
  }

  lemma WordFromParts(legs: seq<Leg>, plan: StakePlan, total: real)
    requires |plan.stakes| == |legs| && NonNegative(plan.stakes) && Sum(plan.stakes, |legs|) <= total && plan.totalStake == total
    requires NeverLess(legs, plan) && OnceJust(legs, plan)
    requires plan.guaranteedProfit == plan.minReturn - total && plan.roi * total == plan.guaranteedProfit
    ensures KeepsItsWord(legs, plan, total)
  {
  }

  lemma ReportKeepsItsWord(candidate: Candidate, options: ScanOptions, report: Report, legs: seq<Leg>, plan: StakePlan, total: real)
    requires NeverThrows(Settle) && Sensible(options.solver) && legs == Map(LegOf, candidate.legs) && total == TotalStake(options)
    requires Prune(candidate, options.prune) == [] && WithinLimits(candidate, options.stateModel)
    requires IsReport(Settle, legs, options.stateModel, report) && report.covered
    requires Optimize(report.states, legs, total, options.solver) == Planned(plan)
    ensures KeepsItsWord(legs, plan, total)
    ensures plan.isArb <==> plan.minReturn > total + EPS
  {
    WorstIsReal(candidate, options, report, legs, plan);
    NeverReturnsLess(candidate, options, report, legs, plan);
    var j := PlanWorth(report.states, legs, total, options.solver, plan);
    WordFromParts(legs, plan, total);
  }

  lemma PlanKeepsItsWord(scan: CandidateScan, options: ScanOptions, legs: seq<Leg>, plan: StakePlan)
    requires NeverThrows(Settle) && Sensible(options.solver) && IsScan(Settle, scan.candidate, options, scan)
    requires scan.plan == Some(plan) && WithinLimits(scan.candidate, options.stateModel) && legs == Map(LegOf, scan.candidate.legs)
    ensures KeepsItsWord(legs, plan, TotalStake(options))
    ensures scan.status in {Arb, NoArb} && (scan.status == Arb <==> plan.minReturn > TotalStake(options) + EPS)
  {
    PlannedParts(scan.candidate, options, scan);
    ReportKeepsItsWord(scan.candidate, options, scan.coverage.value, legs, plan, TotalStake(options));
  }

  // ---------------------------------------------------------------- an arbitrage that is there is reported

  // A split of the total that returns more than it at every finished match.
  ghost predicate BeatsEverywhere(legs: seq<Leg>, w: seq<real>, total: real) {
    && |w| == |legs| && NonNegative(w) && Sum(w, |w|) == total
    && forall m :: RealMatch(m) ==> ProfitsAt(legs, w, total, m)
  }

  // The solver is exact on the program of these legs and states.
  ghost predicate ExactOn(s: Settings, legs: seq<Leg>, states: seq<OutcomeState>) {
    Exact(s, Variables(|legs|, |states|), |states| + 2)
  }

  lemma SurvivorOdds(candidate: Candidate, options: PruneOptions, legs: seq<Leg>)
    requires Prune(candidate, options) == [] && legs == Map(LegOf, candidate.legs)
    ensures forall i :: 0 <= i < |legs| ==> legs[i].odds >= 0.0
  {
    PruneMeans(candidate, options);
    forall i | 0 <= i < |legs| ensures legs[i].odds >= 0.0 {
      assert LegSurvives(candidate, options, candidate.legs[i]);
    }
  }

  // If any split of the total beats it everywhere, so does the plan: the scan is an ARB.
  lemma ArbIsFound(scan: CandidateScan, options: ScanOptions, legs: seq<Leg>, w: seq<real>)
    requires NeverThrows(Settle) && Sensible(options.solver) && IsScan(Settle, scan.candidate, options, scan)
    requires scan.plan.Some? && legs == Map(LegOf, scan.candidate.legs)
    requires scan.coverage.Some? && ExactOn(options.solver, legs, scan.coverage.value.states)
    requires BeatsEverywhere(legs, w, TotalStake(options))
    ensures scan.status == Arb
  {
    PlannedParts(scan.candidate, options, scan);
    var report, total := scan.coverage.value, TotalStake(options);
    CoveredHasStates(legs, options.stateModel, report);
    SurvivorOdds(scan.candidate, options.prune, legs);
    var i := PlanWorth(report.states, legs, total, options.solver, scan.plan.value);
    var plan, j := NoBetterPlan(report.states, legs, total, options.solver, Variables(|legs|, |report.states|),
                                |report.states| + 2, w);
    var m := StateIsReal(scan.candidate, options, report, legs, w, j);
    assert ProfitsAt(legs, w, total, m);
  }

  // ---------------------------------------------------------------- what each status means

  // What is staked in all: 100 unless the options say otherwise.
  ghost function Staked(options: ScanOptions): real {
    match options.totalStake case Some(total) => total case None => 100.0
  }

  ghost predicate SomeSplitBeats(legs: seq<Leg>, total: real) {
    exists w :: BeatsEverywhere(legs, w, total)
  }

  // Every fault is named, and every verdict but those on repeated selections names one.
  ghost predicate NamesFaults(scan: CandidateScan, options: PruneOptions) {
    forall v: PruneVerdict :: v.reason != DuplicateSelection ==> (v in scan.verdicts <==> Fault(scan.candidate, options, v))
  }

  // Pruned is for what does not survive, and has its faults named; Rejected is for what does survive and leaves a
  // finished match open; Arb is for stakes that profit at every finished match, and NoArb for all other stakes.
  // With an exact solver Arb is also for every survivor that some split of the total would profit on.
  ghost predicate TrueScan(scan: CandidateScan, options: ScanOptions) {
    var legs, total := Map(LegOf, scan.candidate.legs), Staked(options);
    && (scan.verdicts == [] <==> Survives(scan.candidate, options.prune)) && NamesFaults(scan, options.prune)
    && (scan.status == Pruned <==> !Survives(scan.candidate, options.prune))
    && (scan.status in {Arb, NoArb} <==> scan.plan.Some?)
    && (WithinLimits(scan.candidate, options.stateModel) ==>
          RightStatus(scan, options, legs, total, Survives(scan.candidate, options.prune)))
  }

  ghost predicate RightStatus(scan: CandidateScan, options: ScanOptions, legs: seq<Leg>, total: real, survives: bool) {
    && (scan.status == Rejected <==> survives && !(AllSettle(legs) && CoversAll(legs)))
    && (scan.status == Arb <==> ProfitsEverywhere(scan, total))
    && (scan.plan.Some? ==> KeepsItsWord(legs, scan.plan.value, total))
    && ((SomeSplitBeats(legs, total) && survives && AllSettle(legs) && CoversAll(legs)
         && (scan.coverage.Some? ==> ExactOn(options.solver, legs, scan.coverage.value.states)))
        ==> scan.status == Arb)
  }

  lemma FaultsAreNamed(scan: CandidateScan, options: ScanOptions)
    requires NeverThrows(Settle) && Sensible(options.solver) && IsScan(Settle, scan.candidate, options, scan)
    ensures NamesFaults(scan, options.prune) && (scan.verdicts == [] <==> Survives(scan.candidate, options.prune))
  {
    PruneMeans(scan.candidate, options.prune);
    forall v: PruneVerdict | v.reason != DuplicateSelection
      ensures v in scan.verdicts <==> Fault(scan.candidate, options.prune, v)
    {
      PruneNames(scan.candidate, options.prune, v);
    }
  }

  // The three ways a scan of a candidate ends, by its verdicts and its coverage.
  lemma ScanEnds(scan: CandidateScan, options: ScanOptions, legs: seq<Leg>)
    requires NeverThrows(Settle) && Sensible(options.solver) && IsScan(Settle, scan.candidate, options, scan)
    requires legs == Map(LegOf, scan.candidate.legs)
    ensures scan.status == Pruned <==> scan.verdicts != []
    ensures scan.status == Rejected <==> scan.verdicts == [] && scan.coverage.Some? && !scan.coverage.value.covered
    ensures scan.verdicts == [] ==> Prune(scan.candidate, options.prune) == [] && scan.coverage.Some?
                                    && IsReport(Settle, legs, options.stateModel, scan.coverage.value)
    ensures scan.status in {Arb, NoArb} <==> scan.plan.Some?
    ensures scan.plan.Some? <==> scan.verdicts == [] && scan.coverage.Some? && scan.coverage.value.covered
  {
  }

  lemma SurvivorCovered(scan: CandidateScan, options: ScanOptions, legs: seq<Leg>)
    requires NeverThrows(Settle) && Sensible(options.solver) && IsScan(Settle, scan.candidate, options, scan)
    requires legs == Map(LegOf, scan.candidate.legs) && scan.verdicts == [] && scan.coverage.Some?
    requires Prune(scan.candidate, options.prune) == [] && WithinLimits(scan.candidate, options.stateModel)
    requires IsReport(Settle, legs, options.stateModel, scan.coverage.value)
    ensures scan.coverage.value.covered <==> AllSettle(legs) && CoversAll(legs)
  {
    var selections := SelectionsOf(legs);
    ArbShape(scan.candidate, options.prune);
    SurvivorsDiffer(scan.candidate, options.prune, legs);
    CoveredMeans(legs, selections, options.stateModel, LimitsOf(selections, ModelOptions(selections, options.stateModel)),
                 scan.coverage.value, scan.candidate.key.period, OnMargin(scan.candidate.legs[0].leg.selection.family));
  }

  lemma SurvivorsDiffer(candidate: Candidate, options: PruneOptions, legs: seq<Leg>)
    requires Prune(candidate, options) == [] && legs == Map(LegOf, candidate.legs)
    ensures |legs| > 0 && !Repeats(legs)
  {
    PruneMeans(candidate, options);
    assert forall i :: 0 <= i < |legs| ==> legs[i].selection == candidate.legs[i].leg.selection;
  }

  // Stakes that once return no more than the total do not profit everywhere.
  lemma ArbProfits(scan: CandidateScan, options: ScanOptions, legs: seq<Leg>)
    requires NeverThrows(Settle) && Sensible(options.solver) && IsScan(Settle, scan.candidate, options, scan)
    requires legs == Map(LegOf, scan.candidate.legs) && WithinLimits(scan.candidate, options.stateModel)
    ensures scan.plan.Some? ==> KeepsItsWord(legs, scan.plan.value, TotalStake(options))
    ensures scan.status == Arb <==> ProfitsEverywhere(scan, TotalStake(options))
  {
    ScanEnds(scan, options, legs);
    if scan.plan.Some? {
      var plan, total := scan.plan.value, TotalStake(options);
      PlanKeepsItsWord(scan, options, legs, plan);
      WordDecides(legs, plan, total);
      ProfitsMeans(scan, legs, plan, total);
    }
  }

  ghost predicate ProfitsAlways(legs: seq<Leg>, stakes: seq<real>, total: real) {
    forall m :: RealMatch(m) ==> ProfitsAt(legs, stakes, total, m)
  }

  lemma ProfitsMeans(scan: CandidateScan, legs: seq<Leg>, plan: StakePlan, total: real)
    requires scan.plan == Some(plan) && legs == Map(LegOf, scan.candidate.legs) && KeepsItsWord(legs, plan, total)
    ensures ProfitsEverywhere(scan, total) <==> ProfitsAlways(legs, plan.stakes, total)
  {
  }

  lemma WordDecides(legs: seq<Leg>, plan: StakePlan, total: real)
    requires KeepsItsWord(legs, plan, total)
    ensures plan.minReturn > total + EPS <==> ProfitsAlways(legs, plan.stakes, total)
  {
    if plan.minReturn > total + EPS {
      forall m | RealMatch(m) ensures ProfitsAt(legs, plan.stakes, total, m) {
        assert ReturnsAtLeast(legs, plan.stakes, m, plan.minReturn);
      }
    } else {
      var worst :| RealMatch(worst) && Returns(legs, plan.stakes, worst, plan.minReturn);
      assert !ProfitsAt(legs, plan.stakes, total, worst);
    }
  }

  lemma SurvivorIsFound(scan: CandidateScan, options: ScanOptions, legs: seq<Leg>)
    requires NeverThrows(Settle) && Sensible(options.solver) && IsScan(Settle, scan.candidate, options, scan)
    requires legs == Map(LegOf, scan.candidate.legs) && SomeSplitBeats(legs, TotalStake(options))
    requires scan.plan.Some? && scan.coverage.Some? && ExactOn(options.solver, legs, scan.coverage.value.states)
    ensures scan.status == Arb
  {
    var w :| BeatsEverywhere(legs, w, TotalStake(options));
    ArbIsFound(scan, options, legs, w);
  }

  lemma StatusIsRight(scan: CandidateScan, options: ScanOptions, legs: seq<Leg>, total: real)
    requires NeverThrows(Settle) && Sensible(options.solver) && IsScan(Settle, scan.candidate, options, scan)
    requires legs == Map(LegOf, scan.candidate.legs) && total == TotalStake(options)
    requires WithinLimits(scan.candidate, options.stateModel)
    ensures RightStatus(scan, options, legs, total, scan.verdicts == [])
  {
    ScanEnds(scan, options, legs);
    ArbProfits(scan, options, legs);
    if scan.verdicts == [] {
      SurvivorCovered(scan, options, legs);
      if scan.plan.Some? && SomeSplitBeats(legs, total) && ExactOn(options.solver, legs, scan.coverage.value.states) {
        SurvivorIsFound(scan, options, legs);
      }
    }
    RightFromParts(scan, options, legs, total, AllSettle(legs) && CoversAll(legs));
  }

  lemma RightFromParts(scan: CandidateScan, options: ScanOptions, legs: seq<Leg>, total: real, covers: bool)
    requires covers <==> AllSettle(legs) && CoversAll(legs)
    requires scan.verdicts == [] ==> scan.coverage.Some? && (scan.coverage.value.covered <==> covers)
    requires scan.status == Rejected <==> scan.verdicts == [] && scan.coverage.Some? && !scan.coverage.value.covered
    requires scan.plan.Some? <==> scan.verdicts == [] && scan.coverage.Some? && scan.coverage.value.covered
    requires scan.plan.Some? ==> KeepsItsWord(legs, scan.plan.value, total)
    requires scan.status == Arb <==> ProfitsEverywhere(scan, total)
    requires (scan.plan.Some? && scan.coverage.Some? && SomeSplitBeats(legs, total)
              && ExactOn(options.solver, legs, scan.coverage.value.states)) ==> scan.status == Arb
    ensures RightStatus(scan, options, legs, total, scan.verdicts == [])
  {
  }

  lemma ScanIsTrue(scan: CandidateScan, options: ScanOptions)
    requires NeverThrows(Settle) && Sensible(options.solver) && IsScan(Settle, scan.candidate, options, scan)
    ensures TrueScan(scan, options)
  {
    var legs := Map(LegOf, scan.candidate.legs);
    FaultsAreNamed(scan, options);
    ScanEnds(scan, options, legs);
    if WithinLimits(scan.candidate, options.stateModel) {
      StatusIsRight(scan, options, legs, TotalStake(options));
    }
    TrueFromParts(scan, options, legs, TotalStake(options));
  }

  lemma TrueFromParts(scan: CandidateScan, options: ScanOptions, legs: seq<Leg>, total: real)
    requires legs == Map(LegOf, scan.candidate.legs) && total == TotalStake(options)
    requires NamesFaults(scan, options.prune) && (scan.verdicts == [] <==> Survives(scan.candidate, options.prune))
    requires scan.status == Pruned <==> scan.verdicts != []
    requires scan.status in {Arb, NoArb} <==> scan.plan.Some?
    requires WithinLimits(scan.candidate, options.stateModel) ==> RightStatus(scan, options, legs, total, scan.verdicts == [])
    ensures TrueScan(scan, options)
  {
    assert Staked(options) == total;
  }

  // ---------------------------------------------------------------- the scan of a batch

  // The scan throws only for a total that is not positive, or for a covered candidate that the solver is not exact on.
  ghost predicate ThrowsFor(cands: seq<Candidate>, options: ScanOptions, why: Failure) {
    if Staked(options) <= 0.0 then why == BadStake
    else why == NotOptimal && exists i, coverage :: 0 <= i < |cands| && NotExactOn(cands[i], options, coverage)
  }

  ghost predicate NotExactOn(candidate: Candidate, options: ScanOptions, coverage: Report) {
    var legs := Map(LegOf, candidate.legs);
    && Survives(candidate, options.prune) && NeverThrows(Settle)
    && IsReport(Settle, legs, options.stateModel, coverage) && coverage.covered
    && !ExactOn(options.solver, legs, coverage.states)
  }

  // With an exact solver and a positive total the optimizer does not fail on a survivor.
  lemma ExactPlans(candidate: Candidate, options: ScanOptions, report: Report, legs: seq<Leg>, total: real)
    requires NeverThrows(Settle) && Sensible(options.solver) && legs == Map(LegOf, candidate.legs)
    requires Prune(candidate, options.prune) == [] && IsReport(Settle, legs, options.stateModel, report) && report.covered
    requires ExactOn(options.solver, legs, report.states) && total > 0.0
    ensures Optimize(report.states, legs, total, options.solver).Planned?
  {
    CoveredHasStates(legs, options.stateModel, report);
    SurvivorOdds(candidate, options.prune, legs);
    var w := AllOnFirst(|legs|, total);
    var plan, j := NoBetterPlan(report.states, legs, total, options.solver, Variables(|legs|, |report.states|),
                                |report.states| + 2, w);
  }

  lemma AllOnFirst(n: nat, total: real) returns (w: seq<real>)
    requires n > 0 && total >= 0.0
    ensures |w| == n && NonNegative(w) && Sum(w, |w|) == total
  {
    w := seq(n, i => if i == 0 then total else 0.0);
    FirstOnly(w, n);
  }

  lemma {:induction false} FirstOnly(w: seq<real>, k: nat)
    requires 0 < k <= |w| && forall i :: 0 < i < |w| ==> w[i] == 0.0
    ensures Sum(w, k) == w[0]
  {
    if k > 1 {
      FirstOnly(w, k - 1);
    } else {
      assert Sum(w, 0) == 0.0;
    }
  }

  // The scan of a candidate throws only for a total that is not positive, or when the solver is not exact on it.
  lemma ThrowsOnlyWhen(candidate: Candidate, options: ScanOptions, why: Failure) returns (coverage: Report)
    requires NeverThrows(Settle) && Sensible(options.solver) && Throws(Settle, candidate, options, why)
    ensures if TotalStake(options) <= 0.0 then why == BadStake
            else why == NotOptimal && NotExactOn(candidate, options, coverage)
  {
    coverage :| ThrowsAt(Settle, candidate, options, coverage, why);
    var legs := Map(LegOf, candidate.legs);
    PruneMeans(candidate, options.prune);
    CoveredHasStates(legs, options.stateModel, coverage);
    FailsOnlyWhen(coverage.states, legs, TotalStake(options), options.solver, why);
    if TotalStake(options) > 0.0 && ExactOn(options.solver, legs, coverage.states) {
      ExactPlans(candidate, options, coverage, legs, TotalStake(options));
    }
  }

  // The generated candidates in order, each with its true status; or the exception.
  ghost predicate TrueScans(priced: seq<PricedSelection>, options: ScanOptions, r: Scanned<seq<CandidateScan>>) {
    match r
    case Thrown(why) => exists cands :: IsGeneration(priced, options.generator, cands) && ThrowsFor(cands, options, why)
    case Scans(scans) =>
      && IsGeneration(priced, options.generator, Map(CandidateOf, scans))
      && (UniqueIds(priced) ==> IsExactly(priced, options.generator, Map(CandidateOf, scans)))
      && forall i :: 0 <= i < |scans| ==> TrueScan(scans[i], options)
  }

  // The scan of a batch with the real settlement.
  method ScanForArbitrages(priced: seq<PricedSelection>, options: ScanOptions) returns (r: Scanned<seq<CandidateScan>>)
    requires Sensible(options.solver)
    ensures TrueScans(priced, options, r)
  {
    SettleFits();
    r := ScanCandidates(Settle, priced, options);
    ghost var cands :| IsBatch(Settle, priced, options, cands, r);
    BatchMeans(priced, options, cands, r);
  }

  lemma BatchMeans(priced: seq<PricedSelection>, options: ScanOptions, cands: seq<Candidate>, r: Scanned<seq<CandidateScan>>)
    requires NeverThrows(Settle) && Sensible(options.solver) && IsBatch(Settle, priced, options, cands, r)
    ensures TrueScans(priced, options, r)
  {
    match r {
      case Thrown(why) => BatchThrows(cands, options, why);
      case Scans(scans) =>
        BatchIsTrue(cands, options, scans);
        BatchIsExact(priced, options.generator, cands);
    }
  }

  lemma BatchIsExact(priced: seq<PricedSelection>, options: GeneratorOptions, cands: seq<Candidate>)
    requires IsGeneration(priced, options, cands)
    ensures UniqueIds(priced) ==> IsExactly(priced, options, cands)
  {
    if UniqueIds(priced) {
      GeneratesExactly(priced, options, cands);
    }
  }

  function CandidateOf(scan: CandidateScan): Candidate {
    scan.candidate
  }

  lemma ThrowsForOne(cands: seq<Candidate>, options: ScanOptions, why: Failure, i: nat, coverage: Report)
    requires i < |cands|
    requires if TotalStake(options) <= 0.0 then why == BadStake
             else why == NotOptimal && NotExactOn(cands[i], options, coverage)
    ensures ThrowsFor(cands, options, why)
  {
    assert Staked(options) == TotalStake(options);
  }

  lemma BatchThrows(cands: seq<Candidate>, options: ScanOptions, why: Failure)
    requires NeverThrows(Settle) && Sensible(options.solver) && SomeThrows(Settle, cands, options, why)
    ensures ThrowsFor(cands, options, why)
  {
    var i :| 0 <= i < |cands| && Throws(Settle, cands[i], options, why);
    var coverage := ThrowsOnlyWhen(cands[i], options, why);
    ThrowsForOne(cands, options, why, i, coverage);
  }

  lemma BatchIsTrue(cands: seq<Candidate>, options: ScanOptions, scans: seq<CandidateScan>)
    requires NeverThrows(Settle) && Sensible(options.solver) && AreScans(Settle, cands, options, scans)
    ensures Map(CandidateOf, scans) == cands && forall i :: 0 <= i < |scans| ==> TrueScan(scans[i], options)
  {
    forall i | 0 <= i < |scans| ensures scans[i].candidate == cands[i] && TrueScan(scans[i], options) {
      assert IsScan(Settle, cands[i], options, scans[i]);
      ScanIsTrue(scans[i], options);
    }
  }
}
