// What a coverage report says about every finished score.

module CoverageTheorems {
  import opened Lines
  import opened Settlement
  import opened Coordinates
  import opened Grouping
  import opened Sequences
  import opened StateModel
  import opened ScoreSpace
  import opened Coverage

  // ---------------------------------------------------------------- winners of one vector

  // At least half of the bet wins.
  ghost predicate WinsHalf(r: SettlementResult) {
    r in {FullWin, HalfWin}
  }

  ghost predicate SomeWinner(vector: seq<SettlementResult>) {
    exists i :: 0 <= i < |vector| && WinsHalf(vector[i])
  }

  // One family, period and participant.
  ghost predicate SameMarket(a: Selection, b: Selection) {
    a.family == b.family && a.period == b.period && a.participant == b.participant
  }

  // Two legs on one market both win.
  ghost predicate SharedWin(legs: seq<Leg>, vector: seq<SettlementResult>) {
    exists i, j :: 0 <= i < j < |vector| <= |legs| && WinsHalf(vector[i]) && WinsHalf(vector[j])
      && SameMarket(legs[i].selection, legs[j].selection)
  }

  lemma {:induction false} PlacesFind(f: SettlementResult -> bool, vector: seq<SettlementResult>, i: nat)
    returns (a: nat)
    requires i < |vector| && f(vector[i])
    ensures a < |Places(f, vector)| && Places(f, vector)[a] == i
  {
    var n := |vector| - 1;
    if i < n {
      a := PlacesFind(f, vector[..n], i);
    } else {
      a := |Places(f, vector[..n])|;
    }
  }

  lemma GapMeans(state: OutcomeState)
    ensures IsGap(state) <==> !SomeWinner(state.vector)
  {
    var winners := Winners(state.vector);
    if |winners| > 0 {
      assert WinsHalf(state.vector[winners[0]]);
    }
    if SomeWinner(state.vector) {
      var i :| 0 <= i < |state.vector| && WinsHalf(state.vector[i]);
      var a := PlacesFind(Winning, state.vector, i);
    }
  }

  lemma PairOfWinners(legs: seq<Leg>, vector: seq<SettlementResult>, i: nat, j: nat)
    requires i < j < |vector| == |legs| && Winning(vector[i]) && Winning(vector[j])
    requires MetricOf(legs[i].selection) == MetricOf(legs[j].selection)
    ensures Shares(MetricAt(legs), Winners(vector))
  {
    var winners := Winners(vector);
    var a := PlacesFind(Winning, vector, i);
    var b := PlacesFind(Winning, vector, j);
    var first, second := Min(a, b), Max(a, b);
    assert a != b && MetricAt(legs)(winners[first]) == MetricAt(legs)(winners[second]);
  }

  lemma WinnersOfPair(legs: seq<Leg>, vector: seq<SettlementResult>)
    requires |vector| == |legs| && Shares(MetricAt(legs), Winners(vector))
    ensures SharedWin(legs, vector)
  {
    var winners := Winners(vector);
    var a, b :| 0 <= a < b < |winners| && MetricAt(legs)(winners[a]) == MetricAt(legs)(winners[b]);
    var i, j := winners[a], winners[b];
    assert i < j && WinsHalf(vector[i]) && WinsHalf(vector[j]);
    assert SameMarket(legs[i].selection, legs[j].selection);
  }

  lemma SharedWinners(legs: seq<Leg>, vector: seq<SettlementResult>)
    requires |vector| == |legs|
    ensures SharedWin(legs, vector) <==> Shares(MetricAt(legs), Winners(vector))
  {
    if SharedWin(legs, vector) {
      var i, j :| 0 <= i < j < |vector| && WinsHalf(vector[i]) && WinsHalf(vector[j])
        && SameMarket(legs[i].selection, legs[j].selection);
      PairOfWinners(legs, vector, i, j);
    }
    if Shares(MetricAt(legs), Winners(vector)) {
      WinnersOfPair(legs, vector);
    }
  }

  lemma ClashMeans(legs: seq<Leg>, state: OutcomeState)
    requires |state.vector| == |legs|
    ensures |Clashes(legs, state)| > 0 <==> SharedWin(legs, state.vector)
  {
    var groups := MetricGroups(legs, state);
    SharedWinners(legs, state.vector);
    SharedGroup(MetricAt(legs), Winners(state.vector));
    FilterEmpty((g: MetricGroup) => |g.items| >= 2, groups);
    assert SomePair(groups) <==> !Free((g: MetricGroup) => |g.items| >= 2, groups);
  }

  // ---------------------------------------------------------------- all states

  ghost predicate Aligned(legs: seq<Leg>, states: seq<OutcomeState>) {
    forall i :: 0 <= i < |states| ==> |states[i].vector| == |legs|
  }

  ghost predicate AllWon(states: seq<OutcomeState>) {
    forall i :: 0 <= i < |states| ==> SomeWinner(states[i].vector)
  }

  ghost predicate NoneShared(legs: seq<Leg>, states: seq<OutcomeState>) {
    forall i :: 0 <= i < |states| ==> !SharedWin(legs, states[i].vector)
  }

  lemma StateOverlapsMean(legs: seq<Leg>, state: OutcomeState)
    requires |state.vector| == |legs|
    ensures Free(IsSameMetric, StateOverlaps(legs, state)) <==> !SharedWin(legs, state.vector)
  {
    ClashMeans(legs, state);
    var overlaps := StateOverlaps(legs, state);
    if |Clashes(legs, state)| > 0 {
      assert IsSameMetric(overlaps[0]);
    }
  }

  lemma StateVerdictsMean(legs: seq<Leg>, state: OutcomeState)
    requires |state.vector| == |legs|
    ensures StateVerdicts(legs, state) == [] <==> SomeWinner(state.vector) && !SharedWin(legs, state.vector)
  {
    GapMeans(state);
    ClashMeans(legs, state);
  }

  // How a review's ingredients read a state, as won or shared by its winners.
  ghost predicate Reads(overlapsOf: OutcomeState -> seq<Overlap>, verdictsOf: OutcomeState -> seq<Verdict>,
      isGap: OutcomeState -> bool, state: OutcomeState, won: bool, shared: bool) {
    && (isGap(state) <==> !won)
    && (Free(IsSameMetric, overlapsOf(state)) <==> !shared)
    && (verdictsOf(state) == [] <==> won && !shared)
  }

  lemma ReviewWithMeans(overlapsOf: OutcomeState -> seq<Overlap>, verdictsOf: OutcomeState -> seq<Verdict>,
      isGap: OutcomeState -> bool, states: seq<OutcomeState>, won: seq<bool>, shared: seq<bool>, report: Report)
    requires report == ReviewWith(overlapsOf, verdictsOf, isGap, states) && |won| == |shared| == |states|
    requires forall i :: 0 <= i < |states| ==> Reads(overlapsOf, verdictsOf, isGap, states[i], won[i], shared[i])
    ensures report.exhaustive <==> forall i :: 0 <= i < |states| ==> won[i]
    ensures report.exclusive <==> forall i :: 0 <= i < |states| ==> !shared[i]
    ensures report.covered <==> forall i :: 0 <= i < |states| ==> won[i] && !shared[i]
  {
    FilterEmpty(isGap, states);
    FlatMapFree(overlapsOf, IsSameMetric, states);
    FlatMapEmpty(verdictsOf, states);
    PushAllTally([], FlatMap(verdictsOf, states), NonExclusive);
  }

  lemma StateMeans(legs: seq<Leg>, state: OutcomeState)
    requires |state.vector| == |legs|
    ensures Reads(OverlapsOf(legs), VerdictsOf(legs), IsGap, state, SomeWinner(state.vector), SharedWin(legs, state.vector))
  {
    GapMeans(state);
    StateOverlapsMean(legs, state);
    StateVerdictsMean(legs, state);
  }

  lemma WonAndShared(legs: seq<Leg>, states: seq<OutcomeState>) returns (won: seq<bool>, shared: seq<bool>)
    ensures |won| == |shared| == |states|
    ensures forall i :: 0 <= i < |states| ==> won[i] == SomeWinner(states[i].vector)
    ensures forall i :: 0 <= i < |states| ==> shared[i] == SharedWin(legs, states[i].vector)
    ensures AllWon(states) <==> forall i :: 0 <= i < |states| ==> won[i]
    ensures NoneShared(legs, states) <==> forall i :: 0 <= i < |states| ==> !shared[i]
  {
    won := seq(|states|, i requires 0 <= i < |states| => SomeWinner(states[i].vector));
    shared := seq(|states|, i requires 0 <= i < |states| => SharedWin(legs, states[i].vector));
  }

  // A review passes exactly when every state has a winner and no state has two on one metric.
  lemma ReviewMeans(legs: seq<Leg>, states: seq<OutcomeState>, report: Report)
    requires Aligned(legs, states) && report == Review(legs, states)
    ensures report.exhaustive <==> AllWon(states)
    ensures report.exclusive <==> NoneShared(legs, states)
    ensures report.covered <==> AllWon(states) && NoneShared(legs, states)
  {
    var won, shared := WonAndShared(legs, states);
    var overlapsOf, verdictsOf := OverlapsOf(legs), VerdictsOf(legs);
    forall i | 0 <= i < |states| ensures Reads(overlapsOf, verdictsOf, IsGap, states[i], won[i], shared[i]) {
      StateMeans(legs, states[i]);
    }
    ReviewWithMeans(overlapsOf, verdictsOf, IsGap, states, won, shared, report);
  }

  // ---------------------------------------------------------------- counts

  lemma StateOverlapCount(legs: seq<Leg>, state: OutcomeState)
    ensures Count(IsSameMetric, StateOverlaps(legs, state)) == |Clashes(legs, state)|
  {
    CountSplit(IsSameMetric, ClashOverlaps(legs, state), CrossOverlaps(legs, state));
    CountAll(IsSameMetric, ClashOverlaps(legs, state), true);
    CountAll(IsSameMetric, CrossOverlaps(legs, state), false);
  }

  lemma GapVerdictCount(legs: seq<Leg>, state: OutcomeState, reason: RejectionReason)
    ensures Count(HasReason(reason), GapVerdicts(legs, state)) ==
      if IsGap(state) && reason == (if LosesAll(legs, state) then BothLossState else NonExhaustive) then 1 else 0
  {
    if IsGap(state) {
      CountOne(HasReason(reason), GapVerdicts(legs, state)[0]);
    }
  }

  lemma StateVerdictCount(legs: seq<Leg>, state: OutcomeState, reason: RejectionReason)
    ensures Count(HasReason(reason), StateVerdicts(legs, state)) ==
      (if reason == NonExclusive then |Clashes(legs, state)| else 0) + Count(HasReason(reason), GapVerdicts(legs, state))
  {
    CountSplit(HasReason(reason), ClashVerdicts(legs, state), GapVerdicts(legs, state));
    CountAll(HasReason(reason), ClashVerdicts(legs, state), reason == NonExclusive);
  }

  lemma ReviewWithCounts(overlapsOf: OutcomeState -> seq<Overlap>, verdictsOf: OutcomeState -> seq<Verdict>,
      isGap: OutcomeState -> bool, gapLoses: OutcomeState -> bool, gapPushes: OutcomeState -> bool,
      states: seq<OutcomeState>, report: Report)
    requires report == ReviewWith(overlapsOf, verdictsOf, isGap, states)
    requires CountsAlike(verdictsOf, HasReason(NonExclusive), overlapsOf, IsSameMetric, states)
    requires CountsAs(verdictsOf, HasReason(BothLossState), gapLoses, states)
    requires CountsAs(verdictsOf, HasReason(NonExhaustive), gapPushes, states)
    ensures Tally(report.rejections, NonExclusive) == Count(IsSameMetric, report.overlaps)
    ensures Tally(report.rejections, BothLossState) == Count(gapLoses, states)
    ensures Tally(report.rejections, NonExhaustive) == Count(gapPushes, states)
  {
    var verdicts := FlatMap(verdictsOf, states);
    PushAllTally([], verdicts, NonExclusive);
    PushAllTally([], verdicts, BothLossState);
    PushAllTally([], verdicts, NonExhaustive);
    FlatMapCounts(verdictsOf, HasReason(NonExclusive), overlapsOf, IsSameMetric, states);
    FlatMapCountIs(verdictsOf, HasReason(BothLossState), gapLoses, states);
    FlatMapCountIs(verdictsOf, HasReason(NonExhaustive), gapPushes, states);
  }

  // Two legs or more, and every one of them loses in full.
  ghost function BothLose(legs: seq<Leg>): OutcomeState -> bool {
    (state: OutcomeState) => |legs| >= 2 && forall i :: 0 <= i < |state.vector| ==> state.vector[i] == FullLoss
  }

  // No leg wins, but not every one of them loses in full.
  ghost function NoneWins(legs: seq<Leg>): OutcomeState -> bool {
    (state: OutcomeState) => !SomeWinner(state.vector) && !BothLose(legs)(state)
  }

  lemma {:induction false} PlacesAll(f: SettlementResult -> bool, vector: seq<SettlementResult>)
    ensures |Places(f, vector)| <= |vector|
    ensures |Places(f, vector)| == |vector| <==> forall i :: 0 <= i < |vector| ==> f(vector[i])
  {
    if |vector| > 0 {
      var n := |vector| - 1;
      PlacesAll(f, vector[..n]);
      assert forall i :: 0 <= i < n ==> vector[..n][i] == vector[i];
    }
  }

  lemma GapKinds(legs: seq<Leg>, state: OutcomeState)
    requires |state.vector| == |legs|
    ensures IsGap(state) && LosesAll(legs, state) <==> BothLose(legs)(state)
    ensures IsGap(state) && !LosesAll(legs, state) <==> NoneWins(legs)(state)
  {
    GapMeans(state);
    PlacesAll((r: SettlementResult) => r == FullLoss, state.vector);
  }

  lemma StateCounts(legs: seq<Leg>, state: OutcomeState)
    requires |state.vector| == |legs|
    ensures Count(HasReason(NonExclusive), VerdictsOf(legs)(state)) == Count(IsSameMetric, OverlapsOf(legs)(state))
    ensures Count(HasReason(BothLossState), VerdictsOf(legs)(state)) == if BothLose(legs)(state) then 1 else 0
    ensures Count(HasReason(NonExhaustive), VerdictsOf(legs)(state)) == if NoneWins(legs)(state) then 1 else 0
  {
    GapKinds(legs, state);
    StateOverlapCount(legs, state);
    StateVerdictCount(legs, state, NonExclusive);
    StateVerdictCount(legs, state, BothLossState);
    StateVerdictCount(legs, state, NonExhaustive);
    GapVerdictCount(legs, state, NonExclusive);
    GapVerdictCount(legs, state, BothLossState);
    GapVerdictCount(legs, state, NonExhaustive);
  }

  // The tallies of a report account for every fault found, however its verdicts were merged: one for each overlap on
  // one metric, one for each state that all legs lose, and one for each other state that none wins.
  lemma ReportCounts(legs: seq<Leg>, states: seq<OutcomeState>, report: Report)
    requires Aligned(legs, states) && report == Review(legs, states)
    ensures Tally(report.rejections, NonExclusive) == Count(IsSameMetric, report.overlaps)
    ensures Tally(report.rejections, BothLossState) == Count(BothLose(legs), states)
    ensures Tally(report.rejections, NonExhaustive) == Count(NoneWins(legs), states)
    ensures forall state :: state in report.gaps <==> state in states && !SomeWinner(state.vector)
  {
    forall i | 0 <= i < |states|
      ensures Count(HasReason(NonExclusive), VerdictsOf(legs)(states[i])) == Count(IsSameMetric, OverlapsOf(legs)(states[i]))
      ensures Count(HasReason(BothLossState), VerdictsOf(legs)(states[i])) == if BothLose(legs)(states[i]) then 1 else 0
      ensures Count(HasReason(NonExhaustive), VerdictsOf(legs)(states[i])) == if NoneWins(legs)(states[i]) then 1 else 0
    {
      StateCounts(legs, states[i]);
    }
    ReviewWithCounts(OverlapsOf(legs), VerdictsOf(legs), IsGap, BothLose(legs), NoneWins(legs), states, report);
    forall state ensures IsGap(state) <==> !SomeWinner(state.vector) {
      GapMeans(state);
    }
  }

  // ---------------------------------------------------------------- every finished score

  ghost predicate WinsAt(leg: Leg, m: MatchState) {
    var result := ResultOf(Settle, leg.selection, m);
    result == Some(FullWin) || result == Some(HalfWin)
  }

  // Some leg wins at least half, and no two legs on one market both do.
  ghost predicate Covers(legs: seq<Leg>, m: MatchState) {
    && (exists i :: 0 <= i < |legs| && WinsAt(legs[i], m))
    && !(exists i, j :: 0 <= i < j < |legs| && WinsAt(legs[i], m) && WinsAt(legs[j], m)
           && SameMarket(legs[i].selection, legs[j].selection))
  }

  ghost predicate CoversAll(legs: seq<Leg>) {
    forall m :: RealMatch(m) ==> Covers(legs, m)
  }

  ghost predicate AlwaysSettles(s: Selection) {
    InScope(s) && forall m :: RealMatch(m) ==> Settle(s, m).Settled?
  }

  ghost predicate AllSettle(legs: seq<Leg>) {
    forall i :: 0 <= i < |legs| ==> AlwaysSettles(legs[i].selection)
  }

  ghost predicate Repeats(legs: seq<Leg>) {
    exists i, j :: 0 <= i < j < |legs| && legs[i].selection == legs[j].selection
  }

  lemma DuplicatesMean(legs: seq<Leg>)
    ensures |Duplicates(legs)| > 0 <==> Repeats(legs)
  {
    var key := (leg: Leg) => leg.selection;
    var two := (g: Group<Selection, Leg>) => |g.items| > 1;
    SharedGroup(key, legs);
    FilterEmpty(two, SelectionGroups(legs));
    assert SomePair(SelectionGroups(legs)) <==> !Free(two, SelectionGroups(legs));
    assert Shares(key, legs) <==> Repeats(legs);
  }

  lemma ModelledMeans(s: Selection)
    ensures Modelled(Settle, s) <==> AlwaysSettles(s)
  {
    if InScope(s) {
      assert RealMatch(PROBE);
      forall m | RealMatch(m) ensures Settle(s, m).Settled? <==> Modelled(Settle, s) {
        ModelledSettles(s, m);
      }
    }
  }

  lemma {:induction false} NoUnknowns(rule: Rule, selections: seq<Selection>)
    requires forall s :: s in selections ==> rule(s, PROBE) != Threw
    ensures |Unknowns(rule, selections)| == 0 <==> forall s :: s in selections ==> Modelled(rule, s)
    ensures |Unknowns(rule, selections)| == 0 ==> Known(rule, selections) == selections
  {
    if |selections| > 0 {
      var n := |selections| - 1;
      NoUnknowns(rule, selections[..n]);
      assert selections == selections[..n] + [selections[n]];
    }
  }

  lemma UnknownsMean(legs: seq<Leg>)
    requires NeverThrows(Settle)
    ensures |Unknowns(Settle, SelectionsOf(legs))| == 0 <==> AllSettle(legs)
    ensures AllSettle(legs) ==> Known(Settle, SelectionsOf(legs)) == SelectionsOf(legs)
  {
    var selections := SelectionsOf(legs);
    NoUnknowns(Settle, selections);
    forall i | 0 <= i < |legs| ensures Modelled(Settle, selections[i]) <==> AlwaysSettles(legs[i].selection) {
      ModelledMeans(legs[i].selection);
    }
    forall s | s in selections ensures Modelled(Settle, s) <==> AlwaysSettles(s) {
      ModelledMeans(s);
    }
    assert forall i :: 0 <= i < |legs| ==> legs[i].selection in selections;
  }

  // A vector wins and clashes where its match does.
  lemma VectorCovers(legs: seq<Leg>, m: MatchState, v: seq<SettlementResult>)
    requires SettlesTo(SelectionsOf(legs), m, v)
    ensures Covers(legs, m) <==> SomeWinner(v) && !SharedWin(legs, v)
  {
    var selections := SelectionsOf(legs);
    forall i | 0 <= i < |legs| ensures WinsAt(legs[i], m) <==> Winning(v[i]) {
      assert Vector(Settle, selections, m)[i] == Some(v[i]);
    }
  }

  // States that are exactly the real vectors pass review exactly when every match is covered.
  lemma ExactReview(legs: seq<Leg>, states: seq<OutcomeState>)
    requires Aligned(legs, states) && AllSettle(legs)
    requires forall v :: HasState(states, v) <==> ReallyReached(SelectionsOf(legs), v)
    ensures AllWon(states) && NoneShared(legs, states) <==> CoversAll(legs)
  {
    var selections := SelectionsOf(legs);
    forall m | RealMatch(m)
      ensures exists i :: 0 <= i < |states| && SettlesTo(selections, m, states[i].vector)
    {
      assert forall i :: 0 <= i < |legs| ==> AlwaysSettles(legs[i].selection);
      var v := Values(Vector(Settle, selections, m));
      assert SettlesTo(selections, m, v) && ReallyReached(selections, v);
      assert HasState(states, v);
    }
    if AllWon(states) && NoneShared(legs, states) {
      forall m | RealMatch(m) ensures Covers(legs, m) {
        var i :| 0 <= i < |states| && SettlesTo(selections, m, states[i].vector);
        VectorCovers(legs, m, states[i].vector);
      }
    }
    if CoversAll(legs) {
      forall i | 0 <= i < |states| ensures SomeWinner(states[i].vector) && !SharedWin(legs, states[i].vector) {
        assert HasState(states, states[i].vector);
        var m :| RealMatch(m) && SettlesTo(selections, m, states[i].vector);
        VectorCovers(legs, m, states[i].vector);
      }
    }
  }

  lemma StatesAligned(rule: Rule, known: seq<Selection>, limits: Limits, legs: seq<Leg>, states: seq<OutcomeState>)
    requires |known| == |legs| > 0 && ModelOf(rule, known, limits, states)
    ensures Aligned(legs, states)
  {
    forall i | 0 <= i < |states| ensures |states[i].vector| == |legs| {
      assert Witnessed(rule, known, limits, states[i]);
    }
  }

  lemma InScopeAll(legs: seq<Leg>)
    requires AllSettle(legs)
    ensures AllInScope(SelectionsOf(legs))
  {
    forall s | s in SelectionsOf(legs) ensures InScope(s) {
      var i :| 0 <= i < |legs| && SelectionsOf(legs)[i] == s;
      assert AlwaysSettles(legs[i].selection);
    }
  }

  lemma ReviewCovers(legs: seq<Leg>, selections: seq<Selection>, limits: Limits, states: seq<OutcomeState>,
      period: Period, margins: bool)
    requires |legs| > 0 && AllSettle(legs) && selections == SelectionsOf(legs)
    requires ModelOf(Settle, selections, limits, states)
    requires OneShape(selections, period, margins) && Roomy(selections, SelectionBound, limits)
    ensures Review(legs, states).covered <==> CoversAll(legs)
  {
    InScopeAll(legs);
    StatesAligned(Settle, selections, limits, legs, states);
    ReviewMeans(legs, states, Review(legs, states));
    forall v ensures HasState(states, v) <==> ReallyReached(selections, v) {
      ModelIsExact(selections, limits, period, margins, states, v);
    }
    ExactReview(legs, states);
  }

  // Below the caps, on one period and one kind of market, COVERED is a statement about every
  // finished match: the legs are there, differ and settle, and at every score of every size some
  // leg wins and no two legs on one metric both win.
  lemma CoveredMeans(legs: seq<Leg>, selections: seq<Selection>, options: Options, limits: Limits, report: Report,
      period: Period, margins: bool)
    requires NeverThrows(Settle) && IsReport(Settle, legs, options, report)
    requires selections == SelectionsOf(legs) && limits == LimitsOf(selections, ModelOptions(selections, options))
    requires OneShape(selections, period, margins) && Roomy(selections, SelectionBound, limits)
    ensures report.covered <==> |legs| > 0 && !Repeats(legs) && AllSettle(legs) && CoversAll(legs)
  {
    DuplicatesMean(legs);
    UnknownsMean(legs);
    if |legs| > 0 && !Repeats(legs) && AllSettle(legs) {
      ReviewCovers(legs, selections, limits, report.states, period, margins);
    }
  }

  lemma RoomyAbove(selections: seq<Selection>, bound: Bound, b: nat, limits: Limits)
    requires forall s :: s in selections ==> bound(s) <= b
    requires b < limits.full && b < limits.first && b < limits.corners && b < limits.cards
    ensures Roomy(selections, bound, limits)
  {
  }

  lemma ExplicitLimits(selections: seq<Selection>, goals: nat, corners: nat, cards: nat)
    ensures LimitsOf(selections, Options(Some(goals), Some(corners), Some(cards))) == Limits(goals, goals, corners, cards)
  {
  }

  lemma DefaultOptions(selections: seq<Selection>, b: nat)
    requires b == MaxBound(selections) < 40
    ensures ModelOptions(selections, Options(None, None, None)) == Options(Some(Max(b + 1, 2)), Some(b + 11), Some(Max(b + 1, 2)))
  {
    OptionsByBound(selections, Options(None, None, None), b);
    DerivedOptions(b + 1);
  }

  lemma OptionsByBound(selections: seq<Selection>, options: Options, b: nat)
    requires b == MaxBound(selections)
    ensures ModelOptions(selections, options) == OptionsFor(b + 1, options)
  {
  }

  lemma DerivedOptions(required: nat)
    requires 0 < required <= 40
    ensures OptionsFor(required, Options(None, None, None)) == Options(Some(Max(required, 2)), Some(required + 10), Some(Max(required, 2)))
  {
  }

  lemma BelowMax(selections: seq<Selection>, b: nat)
    requires b == MaxBound(selections)
    ensures forall s :: s in selections ==> SelectionBound(s) <= b
  {
  }

  // The derived limits leave room whenever no override is given and no boundary reaches a cap.
  lemma DefaultLimits(selections: seq<Selection>, b: nat, limits: Limits)
    requires b == MaxBound(selections) < 40
    requires limits == LimitsOf(selections, ModelOptions(selections, Options(None, None, None)))
    ensures Roomy(selections, SelectionBound, limits)
  {
    DefaultOptions(selections, b);
    ExplicitLimits(selections, Max(b + 1, 2), b + 11, Max(b + 1, 2));
    BelowMax(selections, b);
    RoomyAbove(selections, SelectionBound, b, limits);
  }

  // The scan's derived limits cut short from over 40 and a half on, and not before.
  lemma DerivedLimitsCutShort(line: string, n: nat, states: seq<OutcomeState>)
    requires ParseCanonicalLine(line) == Some(n as real + 0.5)
    requires var known := [HomeOver(FullMatch, line)];
             ModelOf(Settle, known, LimitsOf(known, ModelOptions(known, Options(None, None, None))), states)
    ensures ReallyReached([HomeOver(FullMatch, line)], [FullWin])
    ensures HasState(states, [FullWin]) <==> n < 40
  {
    var known := [HomeOver(FullMatch, line)];
    OneBound(line, n);
    OptionsByBound(known, Options(None, None, None), n + 1);
    DerivedGoals(n + 2);
    CapsAndOverridesCutShort(line, n, ModelOptions(known, Options(None, None, None)), states);
  }

  lemma DerivedGoals(required: nat)
    ensures OptionsFor(required, Options(None, None, None)).maxGoals == Some(Min(Max(required, 2), 40))
  {
  }
}
