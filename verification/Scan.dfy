// Pruning, and the whole scan: generate, prune, check coverage, optimise stakes.

module Scan {
  import opened Lines
  import opened Vectors
  import opened SimplexTableau
  import opened Simplex
  import opened Settlement
  import opened Coordinates
  import opened Sequences
  import opened Grouping
  import opened StateModel
  import opened ScoreSpace
  import opened Coverage
  import opened CoverageTheorems
  import opened Optimizer
  import opened Candidates

  const MIN_DECIMAL_ODDS := 1.0000001

  datatype PruneReason =
    | CandidateSize | EventMismatch | PeriodMismatch | DuplicateSelection | InvalidOdds | Suspended | StaleOdds
    | SameBookmaker | EventUncertain | IncompatibleMarket | PricePrefilter

  datatype PruneVerdict = PruneVerdict(reason: PruneReason, legIds: seq<string>)

  datatype PruneOptions = PruneOptions(
    allowSameBookmaker: Option<bool>, minEventConfidence: Option<real>, maxAgeMs: Option<int>, now: int)

  datatype ScanOptions = ScanOptions(
    generator: GeneratorOptions, prune: PruneOptions, totalStake: Option<real>, stateModel: Options, solver: Settings)

  datatype ScanStatus = Pruned | Rejected | Arb | NoArb

  datatype CandidateScan = CandidateScan(
    candidate: Candidate, verdicts: seq<PruneVerdict>, coverage: Option<Report>, plan: Option<StakePlan>, status: ScanStatus)

  // ---------------------------------------------------------------- the price prefilter

  predicate OppositeOutcome(a: Outcome, b: Outcome) {
    || (a == Over && b == Under) || (a == Under && b == Over)
    || (a == BttsYes && b == BttsNo) || (a == BttsNo && b == BttsYes)
    || (a == Home && b == Away) || (a == Away && b == Home)
  }

  predicate Complementary(a: Selection, b: Selection) {
    && a.family == b.family && a.period == b.period && a.participant == b.participant && a.line == b.line
    && OppositeOutcome(a.outcome, b.outcome)
  }

  predicate IsStandardComplement(legs: seq<PricedSelection>) {
    |legs| == 2 && Complementary(legs[0].leg.selection, legs[1].leg.selection)
  }

  // Whether 1/odds add up to 1; the reciprocal of 0 is infinite.
  predicate ReciprocalsReachOne(a: real, b: real) {
    a == 0.0 || b == 0.0 || 1.0 / a + 1.0 / b >= 1.0
  }

  // ---------------------------------------------------------------- pruning

  function If(condition: bool, reason: PruneReason, legIds: seq<string>): seq<PruneVerdict> {
    if condition then [PruneVerdict(reason, legIds)] else []
  }

  function LegVerdicts(candidate: Candidate, options: PruneOptions): PricedSelection -> seq<PruneVerdict> {
    (p: PricedSelection) =>
      If(p.eventId != candidate.key.eventId, EventMismatch, [p.leg.id])
      + If(p.leg.selection.period != candidate.key.period, PeriodMismatch, [p.leg.id])
      + If(p.leg.odds <= MIN_DECIMAL_ODDS, InvalidOdds, [p.leg.id])
      + If(p.suspended, Suspended, [p.leg.id])
      + If(Uncertain(p, options), EventUncertain, [p.leg.id])
      + If(Stale(p, options), StaleOdds, [p.leg.id])
  }

  predicate Uncertain(p: PricedSelection, options: PruneOptions) {
    var least := if options.minEventConfidence.Some? then options.minEventConfidence.value else 0.8;
    p.eventConfidence.Some? && p.eventConfidence.value < least
  }

  predicate Stale(p: PricedSelection, options: PruneOptions) {
    options.maxAgeMs.Some? && p.observedAt.Some? && options.now - p.observedAt.value > options.maxAgeMs.value
  }

  function LegOf(p: PricedSelection): Leg {
    p.leg
  }

  function RepeatVerdicts(legs: seq<PricedSelection>): seq<PruneVerdict> {
    Map((g: Grouping.Group<Selection, Leg>) => PruneVerdict(DuplicateSelection, Map((leg: Leg) => leg.id, g.items)),
        Duplicates(Map(LegOf, legs)))
  }

  predicate ReusesBookmaker(legs: seq<PricedSelection>) {
    exists i, j :: 0 <= i < j < |legs| && legs[i].bookmaker == legs[j].bookmaker
  }

  function Prune(candidate: Candidate, options: PruneOptions): seq<PruneVerdict> {
    var legs := candidate.legs;
    var ids := Map(IdOf, legs);
    If(|legs| < 2, CandidateSize, [])
    + FlatMap(LegVerdicts(candidate, options), legs)
    + RepeatVerdicts(legs)
    + If(options.allowSameBookmaker == Some(false) && |legs| >= 2 && ReusesBookmaker(legs), SameBookmaker, ids)
    + If(!PairwiseCompatible(legs), IncompatibleMarket, ids)
    + If(IsStandardComplement(legs) && ReciprocalsReachOne(legs[0].leg.odds, legs[1].leg.odds), PricePrefilter, ids)
  }

  method CollectVerdicts(of: PricedSelection -> seq<PruneVerdict>, legs: seq<PricedSelection>)
    returns (verdicts: seq<PruneVerdict>)
    ensures verdicts == FlatMap(of, legs)
  {
    verdicts := [];
    for i := 0 to |legs|
      invariant verdicts == FlatMap(of, legs[..i])
    {
      assert legs[..i + 1][..i] == legs[..i];
      verdicts := verdicts + of(legs[i]);
    }
    assert legs[..|legs|] == legs;
  }

  method PruneCandidate(candidate: Candidate, options: PruneOptions) returns (verdicts: seq<PruneVerdict>)
    ensures verdicts == Prune(candidate, options)
  {
    var legs := candidate.legs;
    var ids := Map(IdOf, legs);
    var ofLegs := CollectVerdicts(LegVerdicts(candidate, options), legs);
    verdicts := If(|legs| < 2, CandidateSize, []) + ofLegs + RepeatVerdicts(legs)
      + If(options.allowSameBookmaker == Some(false) && |legs| >= 2 && ReusesBookmaker(legs), SameBookmaker, ids)
      + If(!PairwiseCompatible(legs), IncompatibleMarket, ids)
      + If(IsStandardComplement(legs) && ReciprocalsReachOne(legs[0].leg.odds, legs[1].leg.odds), PricePrefilter, ids);
  }

  // What a leg must be, in so many words: of the candidate's event and period, at odds above the least, not
  // suspended, of a confident enough event and not observed too long ago.
  ghost predicate LegSurvives(candidate: Candidate, options: PruneOptions, p: PricedSelection) {
    && p.eventId == candidate.key.eventId && p.leg.selection.period == candidate.key.period
    && p.leg.odds > 1.0000001 && !p.suspended
    && (p.eventConfidence.Some? ==>
          p.eventConfidence.value >= match options.minEventConfidence case Some(least) => least case None => 0.8)
    && (options.maxAgeMs.Some? && p.observedAt.Some? ==> options.now - p.observedAt.value <= options.maxAgeMs.value)
  }

  // Two legs that are the two sides of one line or question.
  ghost predicate TwoSides(legs: seq<PricedSelection>) {
    && |legs| == 2
    && var (a, b) := (legs[0].leg.selection, legs[1].leg.selection);
       && a.family == b.family && a.period == b.period && a.participant == b.participant && a.line == b.line
       && {a.outcome, b.outcome} in {{Over, Under}, {BttsYes, BttsNo}, {Home, Away}}
  }

  lemma TwoSidesMean(legs: seq<PricedSelection>)
    ensures IsStandardComplement(legs) <==> TwoSides(legs)
  {
    if |legs| == 2 {
      OppositeMeans(legs[0].leg.selection.outcome, legs[1].leg.selection.outcome);
    }
  }

  lemma OppositeMeans(a: Outcome, b: Outcome)
    ensures OppositeOutcome(a, b) <==> {a, b} in {{Over, Under}, {BttsYes, BttsNo}, {Home, Away}}
  {
    SamePair(a, b, Over, Under);
    SamePair(a, b, BttsYes, BttsNo);
    SamePair(a, b, Home, Away);
  }

  // What survives pruning.
  ghost predicate Survives(candidate: Candidate, options: PruneOptions) {
    var legs := candidate.legs;
    && |legs| >= 2 && FitTogether(legs)
    && (forall i :: 0 <= i < |legs| ==> LegSurvives(candidate, options, legs[i]))
    && (options.allowSameBookmaker == Some(false) ==>
          forall i, j :: 0 <= i < j < |legs| ==> legs[i].bookmaker != legs[j].bookmaker)
    && (TwoSides(legs) ==>
          legs[0].leg.odds != 0.0 && legs[1].leg.odds != 0.0 && 1.0 / legs[0].leg.odds + 1.0 / legs[1].leg.odds < 1.0)
  }

  lemma LegVerdictsMean(candidate: Candidate, options: PruneOptions, p: PricedSelection)
    ensures LegVerdicts(candidate, options)(p) == [] <==> LegSurvives(candidate, options, p)
  {
  }

  lemma AllEmpty<T>(a: seq<T>, b: seq<T>, c: seq<T>, d: seq<T>, e: seq<T>, f: seq<T>)
    ensures a + b + c + d + e + f == [] <==> a == [] && b == [] && c == [] && d == [] && e == [] && f == []
  {
    assert |a + b + c + d + e + f| == |a| + |b| + |c| + |d| + |e| + |f|;
  }

  lemma AllLegsMean(candidate: Candidate, options: PruneOptions)
    ensures FlatMap(LegVerdicts(candidate, options), candidate.legs) == []
       <==> forall i :: 0 <= i < |candidate.legs| ==> LegSurvives(candidate, options, candidate.legs[i])
  {
    var of, legs := LegVerdicts(candidate, options), candidate.legs;
    FlatMapEmpty(of, legs);
    forall i | 0 <= i < |legs| ensures of(legs[i]) == [] <==> LegSurvives(candidate, options, legs[i]) {
      LegVerdictsMean(candidate, options, legs[i]);
    }
  }

  lemma RepeatVerdictsMean(legs: seq<PricedSelection>)
    ensures RepeatVerdicts(legs) == [] <==> !HasDuplicateSelection(legs)
  {
    var own := Map(LegOf, legs);
    DuplicatesMean(own);
    assert |RepeatVerdicts(legs)| == |Duplicates(own)|;
    assert forall i :: 0 <= i < |legs| ==> own[i].selection == legs[i].leg.selection;
    if HasDuplicateSelection(legs) {
      var i, j :| 0 <= i < j < |legs| && legs[i].leg.selection == legs[j].leg.selection;
      assert own[i].selection == own[j].selection;
    }
    if Repeats(own) {
      var i, j :| 0 <= i < j < |own| && own[i].selection == own[j].selection;
      assert legs[i].leg.selection == legs[j].leg.selection;
    }
  }

  // Nothing is held against a candidate exactly when it survives every check.
  lemma PruneMeans(candidate: Candidate, options: PruneOptions)
    ensures Prune(candidate, options) == [] <==> Survives(candidate, options)
  {
    var legs := candidate.legs;
    var ids := Map(IdOf, legs);
    AllLegsMean(candidate, options);
    RepeatVerdictsMean(legs);
    AcceptableMeans(legs);
    TwoSidesMean(legs);
    PruneParts(FlatMap(LegVerdicts(candidate, options), legs), RepeatVerdicts(legs), candidate, options, ids);
  }

  lemma IfEmpty(condition: bool, reason: PruneReason, legIds: seq<string>)
    ensures If(condition, reason, legIds) == [] <==> !condition
  {
  }

  lemma PruneParts(ofLegs: seq<PruneVerdict>, repeats: seq<PruneVerdict>, candidate: Candidate, options: PruneOptions,
      ids: seq<string>)
    requires ofLegs == FlatMap(LegVerdicts(candidate, options), candidate.legs)
    requires repeats == RepeatVerdicts(candidate.legs) && ids == Map(IdOf, candidate.legs)
    ensures Prune(candidate, options) == []
       <==> (&& |candidate.legs| >= 2 && ofLegs == [] && repeats == []
             && !(options.allowSameBookmaker == Some(false) && |candidate.legs| >= 2 && ReusesBookmaker(candidate.legs))
             && PairwiseCompatible(candidate.legs)
             && !(IsStandardComplement(candidate.legs)
                  && ReciprocalsReachOne(candidate.legs[0].leg.odds, candidate.legs[1].leg.odds)))
  {
    var legs := candidate.legs;
    var same := options.allowSameBookmaker == Some(false) && |legs| >= 2 && ReusesBookmaker(legs);
    var priced := IsStandardComplement(legs) && ReciprocalsReachOne(legs[0].leg.odds, legs[1].leg.odds);
    IfEmpty(|legs| < 2, CandidateSize, []);
    IfEmpty(same, SameBookmaker, ids);
    IfEmpty(!PairwiseCompatible(legs), IncompatibleMarket, ids);
    IfEmpty(priced, PricePrefilter, ids);
    AllEmpty(If(|legs| < 2, CandidateSize, []), ofLegs, repeats, If(same, SameBookmaker, ids),
      If(!PairwiseCompatible(legs), IncompatibleMarket, ids), If(priced, PricePrefilter, ids));
  }

  // ---------------------------------------------------------------- which verdicts

  // A leg's own fault.
  ghost predicate LegFault(candidate: Candidate, options: PruneOptions, p: PricedSelection, reason: PruneReason) {
    match reason
    case EventMismatch => p.eventId != candidate.key.eventId
    case PeriodMismatch => p.leg.selection.period != candidate.key.period
    case InvalidOdds => p.leg.odds <= 1.0000001
    case Suspended => p.suspended
    case EventUncertain =>
      && p.eventConfidence.Some?
      && p.eventConfidence.value < (match options.minEventConfidence case Some(least) => least case None => 0.8)
    case StaleOdds =>
      options.maxAgeMs.Some? && p.observedAt.Some? && options.now - p.observedAt.value > options.maxAgeMs.value
    case _ => false
  }

  // A fault of the legs together.
  ghost predicate SharedFault(candidate: Candidate, options: PruneOptions, reason: PruneReason) {
    var legs := candidate.legs;
    match reason
    case SameBookmaker =>
      && options.allowSameBookmaker == Some(false)
      && exists i, j :: 0 <= i < j < |legs| && legs[i].bookmaker == legs[j].bookmaker
    case IncompatibleMarket =>
      exists i, j :: 0 <= i < j < |legs| && !MayMix(legs[i].leg.selection.family, legs[j].leg.selection.family)
    case PricePrefilter =>
      && TwoSides(legs)
      && (legs[0].leg.odds == 0.0 || legs[1].leg.odds == 0.0 || 1.0 / legs[0].leg.odds + 1.0 / legs[1].leg.odds >= 1.0)
    case _ => false
  }

  ghost predicate OwnFault(candidate: Candidate, options: PruneOptions, v: PruneVerdict) {
    exists i :: 0 <= i < |candidate.legs| && LegFault(candidate, options, candidate.legs[i], v.reason)
                && v.legIds == [candidate.legs[i].leg.id]
  }

  // What is wrong with a candidate, and with which of its legs.
  ghost predicate Fault(candidate: Candidate, options: PruneOptions, v: PruneVerdict) {
    || (v == PruneVerdict(CandidateSize, []) && |candidate.legs| < 2)
    || OwnFault(candidate, options, v)
    || (SharedFault(candidate, options, v.reason) && v.legIds == Map(IdOf, candidate.legs))
  }

  function Is(v: PruneVerdict): PruneVerdict -> bool {
    (x: PruneVerdict) => x == v
  }

  lemma FreeMeans(v: PruneVerdict, xs: seq<PruneVerdict>)
    ensures Free(Is(v), xs) <==> v !in xs
  {
    if v in xs {
      var i :| 0 <= i < |xs| && xs[i] == v;
      assert Is(v)(xs[i]);
    }
  }

  lemma IfHolds(condition: bool, reason: PruneReason, legIds: seq<string>, v: PruneVerdict)
    ensures v in If(condition, reason, legIds) <==> condition && v == PruneVerdict(reason, legIds)
  {
  }

  lemma SixFaults(event: bool, period: bool, odds: bool, suspended: bool, uncertain: bool, stale: bool, ids: seq<string>,
      v: PruneVerdict)
    ensures v in If(event, EventMismatch, ids) + If(period, PeriodMismatch, ids) + If(odds, InvalidOdds, ids)
                 + If(suspended, Suspended, ids) + If(uncertain, EventUncertain, ids) + If(stale, StaleOdds, ids)
       <==> v.legIds == ids
            && match v.reason
               case EventMismatch => event
               case PeriodMismatch => period
               case InvalidOdds => odds
               case Suspended => suspended
               case EventUncertain => uncertain
               case StaleOdds => stale
               case _ => false
  {
    InSix(v, If(event, EventMismatch, ids), If(period, PeriodMismatch, ids), If(odds, InvalidOdds, ids),
          If(suspended, Suspended, ids), If(uncertain, EventUncertain, ids), If(stale, StaleOdds, ids));
  }

  lemma LegFaults(candidate: Candidate, options: PruneOptions, p: PricedSelection, v: PruneVerdict)
    ensures v in LegVerdicts(candidate, options)(p) <==> LegFault(candidate, options, p, v.reason) && v.legIds == [p.leg.id]
  {
    SixFaults(p.eventId != candidate.key.eventId, p.leg.selection.period != candidate.key.period,
              p.leg.odds <= MIN_DECIMAL_ODDS, p.suspended, Uncertain(p, options), Stale(p, options), [p.leg.id], v);
  }

  lemma AllLegFaults(candidate: Candidate, options: PruneOptions, v: PruneVerdict)
    ensures v in FlatMap(LegVerdicts(candidate, options), candidate.legs) <==> OwnFault(candidate, options, v)
  {
    var of, legs := LegVerdicts(candidate, options), candidate.legs;
    FlatMapFree(of, Is(v), legs);
    FreeMeans(v, FlatMap(of, legs));
    forall i | 0 <= i < |legs|
      ensures Free(Is(v), of(legs[i])) <==> !(LegFault(candidate, options, legs[i], v.reason) && v.legIds == [legs[i].leg.id])
    {
      FreeMeans(v, of(legs[i]));
      LegFaults(candidate, options, legs[i], v);
    }
  }

  lemma SharedFaults(candidate: Candidate, options: PruneOptions)
    ensures var legs := candidate.legs;
            && (SharedFault(candidate, options, SameBookmaker)
                <==> options.allowSameBookmaker == Some(false) && |legs| >= 2 && ReusesBookmaker(legs))
            && (SharedFault(candidate, options, IncompatibleMarket) <==> !PairwiseCompatible(legs))
            && (SharedFault(candidate, options, PricePrefilter)
                <==> IsStandardComplement(legs) && ReciprocalsReachOne(legs[0].leg.odds, legs[1].leg.odds))
  {
    var legs := candidate.legs;
    TwoSidesMean(legs);
    forall i, j | 0 <= i < j < |legs|
      ensures FamiliesCompatible(legs[i].leg.selection.family, legs[j].leg.selection.family)
         <==> MayMix(legs[i].leg.selection.family, legs[j].leg.selection.family)
    {
      CompatibleMeans(legs[i].leg.selection.family, legs[j].leg.selection.family);
    }
  }

  lemma InSix<T>(x: T, a: seq<T>, b: seq<T>, c: seq<T>, d: seq<T>, e: seq<T>, f: seq<T>)
    ensures x in a + b + c + d + e + f <==> x in a || x in b || x in c || x in d || x in e || x in f
  {
  }

  lemma RepeatsOnly(legs: seq<PricedSelection>, v: PruneVerdict)
    ensures v in RepeatVerdicts(legs) ==> v.reason == DuplicateSelection
  {
  }

  lemma SixLists(short: bool, ofLegs: seq<PruneVerdict>, repeats: seq<PruneVerdict>, same: bool, apart: bool, priced: bool,
      ids: seq<string>, v: PruneVerdict)
    ensures v in If(short, CandidateSize, []) + ofLegs + repeats + If(same, SameBookmaker, ids)
                 + If(apart, IncompatibleMarket, ids) + If(priced, PricePrefilter, ids)
       <==> || (short && v == PruneVerdict(CandidateSize, [])) || v in ofLegs || v in repeats
            || (v.legIds == ids && match v.reason case SameBookmaker => same case IncompatibleMarket => apart
                                                  case PricePrefilter => priced case _ => false)
  {
    InSix(v, If(short, CandidateSize, []), ofLegs, repeats, If(same, SameBookmaker, ids), If(apart, IncompatibleMarket, ids),
          If(priced, PricePrefilter, ids));
  }

  // Every fault of a candidate has its verdict, and every verdict but those on repeated selections has its fault.
  lemma PruneNames(candidate: Candidate, options: PruneOptions, v: PruneVerdict)
    requires v.reason != DuplicateSelection
    ensures v in Prune(candidate, options) <==> Fault(candidate, options, v)
  {
    AllLegFaults(candidate, options, v);
    SharedFaults(candidate, options);
    RepeatsOnly(candidate.legs, v);
    NamedFrom(candidate, options, v, SharedFault(candidate, options, SameBookmaker),
              SharedFault(candidate, options, IncompatibleMarket), SharedFault(candidate, options, PricePrefilter),
              FlatMap(LegVerdicts(candidate, options), candidate.legs), RepeatVerdicts(candidate.legs));
    FaultFrom(candidate, options, v, OwnFault(candidate, options, v), SharedFault(candidate, options, SameBookmaker),
              SharedFault(candidate, options, IncompatibleMarket), SharedFault(candidate, options, PricePrefilter));
  }

  ghost predicate Together(reason: PruneReason, same: bool, apart: bool, priced: bool) {
    match reason case SameBookmaker => same case IncompatibleMarket => apart case PricePrefilter => priced case _ => false
  }

  lemma NamedFrom(candidate: Candidate, options: PruneOptions, v: PruneVerdict, same: bool, apart: bool, priced: bool,
      ofLegs: seq<PruneVerdict>, repeats: seq<PruneVerdict>)
    requires ofLegs == FlatMap(LegVerdicts(candidate, options), candidate.legs) && repeats == RepeatVerdicts(candidate.legs)
    requires v !in repeats && (apart <==> !PairwiseCompatible(candidate.legs))
    requires same <==> options.allowSameBookmaker == Some(false) && |candidate.legs| >= 2 && ReusesBookmaker(candidate.legs)
    requires priced <==> IsStandardComplement(candidate.legs)
                         && ReciprocalsReachOne(candidate.legs[0].leg.odds, candidate.legs[1].leg.odds)
    ensures v in Prune(candidate, options)
       <==> || (|candidate.legs| < 2 && v == PruneVerdict(CandidateSize, [])) || v in ofLegs
            || (v.legIds == Map(IdOf, candidate.legs) && Together(v.reason, same, apart, priced))
  {
    SixLists(|candidate.legs| < 2, ofLegs, repeats, same, apart, priced, Map(IdOf, candidate.legs), v);
  }

  lemma FaultFrom(candidate: Candidate, options: PruneOptions, v: PruneVerdict, own: bool, same: bool, apart: bool, priced: bool)
    requires own <==> OwnFault(candidate, options, v)
    requires same <==> SharedFault(candidate, options, SameBookmaker)
    requires apart <==> SharedFault(candidate, options, IncompatibleMarket)
    requires priced <==> SharedFault(candidate, options, PricePrefilter)
    ensures Fault(candidate, options, v)
       <==> || (v == PruneVerdict(CandidateSize, []) && |candidate.legs| < 2) || own
            || (v.legIds == Map(IdOf, candidate.legs) && Together(v.reason, same, apart, priced))
  {
  }

  // ---------------------------------------------------------------- the scan

  function TotalStake(options: ScanOptions): real {
    if options.totalStake.Some? then options.totalStake.value else 100.0
  }

  function StatusOf(plan: StakePlan): ScanStatus {
    if plan.isArb then Arb else NoArb
  }

  function PlanOf(candidate: Candidate, options: ScanOptions, coverage: Report): PlanResult
    requires Sensible(options.solver)
  {
    Optimize(coverage.states, Map(LegOf, candidate.legs), TotalStake(options), options.solver)
  }

  // How a candidate fares, for some report that its coverage check may give.
  ghost predicate IsScan(rule: Rule, candidate: Candidate, options: ScanOptions, scan: CandidateScan)
    requires NeverThrows(rule) && Sensible(options.solver)
  {
    && scan.candidate == candidate && scan.verdicts == Prune(candidate, options.prune)
    && if scan.verdicts != [] then scan.coverage.None? && scan.plan.None? && scan.status == Pruned
       else
         && scan.coverage.Some?
         && IsReport(rule, Map(LegOf, candidate.legs), options.stateModel, scan.coverage.value)
         && if !scan.coverage.value.covered then scan.plan.None? && scan.status == Rejected
            else
              var result := PlanOf(candidate, options, scan.coverage.value);
              result.Planned? && scan.plan == Some(result.plan) && scan.status == StatusOf(result.plan)
  }

  // The optimizer throws on a covered candidate, and the exception ends the scan.
  ghost predicate Throws(rule: Rule, candidate: Candidate, options: ScanOptions, why: Failure)
    requires NeverThrows(rule) && Sensible(options.solver)
  {
    && Prune(candidate, options.prune) == []
    && exists coverage :: ThrowsAt(rule, candidate, options, coverage, why)
  }

  ghost predicate ThrowsAt(rule: Rule, candidate: Candidate, options: ScanOptions, coverage: Report, why: Failure)
    requires NeverThrows(rule) && Sensible(options.solver)
  {
    && IsReport(rule, Map(LegOf, candidate.legs), options.stateModel, coverage) && coverage.covered
    && PlanOf(candidate, options, coverage) == Failed(why)
  }

  datatype Scanned<+T> = Scans(value: T) | Thrown(why: Failure)

  method ScanCandidate(rule: Rule, candidate: Candidate, options: ScanOptions) returns (r: Scanned<CandidateScan>)
    requires NeverThrows(rule) && Local(rule) && Sensible(options.solver)
    ensures match r case Scans(scan) => IsScan(rule, candidate, options, scan)
                    case Thrown(why) => Throws(rule, candidate, options, why)
  {
    var verdicts := PruneCandidate(candidate, options.prune);
    if verdicts != [] {
      return Scans(CandidateScan(candidate, verdicts, None, None, Pruned));
    }
    var legs := Map(LegOf, candidate.legs);
    var coverage := DetectFalseArb(rule, legs, options.stateModel);
    if !coverage.covered {
      return Scans(CandidateScan(candidate, verdicts, Some(coverage), None, Rejected));
    }
    var result := OptimizeStakes(coverage.states, legs, TotalStake(options), options.solver);
    match result {
      case Planned(plan) => r := Scans(CandidateScan(candidate, verdicts, Some(coverage), Some(plan), StatusOf(plan)));
      case Failed(why) =>
        assert ThrowsAt(rule, candidate, options, coverage, why);
        r := Thrown(why);
    }
  }

  ghost predicate AreScans(rule: Rule, cands: seq<Candidate>, options: ScanOptions, scans: seq<CandidateScan>)
    requires NeverThrows(rule) && Sensible(options.solver)
  {
    |scans| == |cands| && forall i :: 0 <= i < |cands| ==> IsScan(rule, cands[i], options, scans[i])
  }

  ghost predicate SomeThrows(rule: Rule, cands: seq<Candidate>, options: ScanOptions, why: Failure)
    requires NeverThrows(rule) && Sensible(options.solver)
  {
    exists i :: 0 <= i < |cands| && Throws(rule, cands[i], options, why)
  }

  lemma ScansSnoc(rule: Rule, cands: seq<Candidate>, options: ScanOptions, scans: seq<CandidateScan>, i: nat,
      scan: CandidateScan)
    requires NeverThrows(rule) && Sensible(options.solver) && i < |cands|
    requires AreScans(rule, cands[..i], options, scans) && IsScan(rule, cands[i], options, scan)
    ensures AreScans(rule, cands[..i + 1], options, scans + [scan])
  {
    assert cands[..i + 1] == cands[..i] + [cands[i]];
  }

  method ScanEach(rule: Rule, cands: seq<Candidate>, options: ScanOptions) returns (r: Scanned<seq<CandidateScan>>)
    requires NeverThrows(rule) && Local(rule) && Sensible(options.solver)
    ensures match r case Scans(scans) => AreScans(rule, cands, options, scans)
                    case Thrown(why) => SomeThrows(rule, cands, options, why)
  {
    var scans := [];
    for i := 0 to |cands|
      invariant AreScans(rule, cands[..i], options, scans)
    {
      var scan := ScanCandidate(rule, cands[i], options);
      if scan.Thrown? {
        return Thrown(scan.why);
      }
      ScansSnoc(rule, cands, options, scans, i, scan.value);
      scans := scans + [scan.value];
    }
    assert cands[..|cands|] == cands;
    r := Scans(scans);
  }

  // What the scan of a batch is: a scan of each generated candidate, or the exception of one of them.
  ghost predicate IsBatch(rule: Rule, priced: seq<PricedSelection>, options: ScanOptions, cands: seq<Candidate>,
      r: Scanned<seq<CandidateScan>>)
    requires NeverThrows(rule) && Sensible(options.solver)
  {
    && IsGeneration(priced, options.generator, cands)
    && match r case Scans(scans) => AreScans(rule, cands, options, scans)
               case Thrown(why) => SomeThrows(rule, cands, options, why)
  }

  method ScanCandidates(rule: Rule, priced: seq<PricedSelection>, options: ScanOptions)
    returns (r: Scanned<seq<CandidateScan>>)
    requires NeverThrows(rule) && Local(rule) && Sensible(options.solver)
    ensures exists cands :: IsBatch(rule, priced, options, cands, r)
  {
    var cands := GenerateCandidates(priced, options.generator);
    r := ScanEach(rule, cands, options);
    assert IsBatch(rule, priced, options, cands, r);
  }

  // ---------------------------------------------------------------- one kind of market

  lemma FamilyKinds(a: Family, b: Family)
    requires FamiliesCompatible(a, b)
    ensures OnMargin(a) == OnMargin(b) && OnCoordinates(a) == OnCoordinates(b)
  {
  }

  // Pairwise compatible legs of one period settle on the margin alone, or on coordinates alone.
  lemma CompatibleIsOneShape(legs: seq<PricedSelection>, period: Period)
    requires |legs| > 0 && PairwiseCompatible(legs)
    requires forall i :: 0 <= i < |legs| ==> legs[i].leg.selection.period == period
    ensures OneShape(SelectionsOf(Map(LegOf, legs)), period, OnMargin(legs[0].leg.selection.family))
  {
    var selections := SelectionsOf(Map(LegOf, legs));
    var first := legs[0].leg.selection.family;
    forall s | s in selections && !IsCount(s) ensures s.period == period && InRegime(s, OnMargin(first)) {
      var i :| 0 <= i < |selections| && selections[i] == s;
      assert s == legs[i].leg.selection;
      if i > 0 {
        FamilyKinds(first, s.family);
      }
    }
  }
}
