// The reduced state model against the unbounded space of finished scores.

module ScoreSpace {
  import opened Lines
  import opened Settlement
  import opened Coordinates
  import opened ScoreGrid
  import opened Sequences
  import opened StateModel

  // ---------------------------------------------------------------- real matches

  // A finished match: natural counts, a first half inside the full time, and a second half
  // that is the rest of it when it is given at all.
  ghost predicate RealMatch(m: MatchState) {
    && m.status == Finished
    && m.fullTime.Some? && m.firstHalf.Some? && m.corners.Some? && m.cards.Some?
    && Natural(m.firstHalf.value) && Natural(m.corners.value) && Natural(m.cards.value)
    && m.firstHalf.value.home <= m.fullTime.value.home
    && m.firstHalf.value.away <= m.fullTime.value.away
    && (m.secondHalf.Some? ==> m.secondHalf.value == Rest(m.fullTime.value, m.firstHalf.value))
  }

  function Rest(full: Score, first: Score): Score {
    Score(full.home - first.home, full.away - first.away)
  }

  lemma RealScore(s: Selection, m: MatchState) returns (score: Score)
    requires RealMatch(m) && (InScope(s) || IsCount(s))
    ensures ScoreFor(s, m) == Some(score) && Natural(score)
  {
    score := ScoreFor(s, m).value;
  }

  // ---------------------------------------------------------------- what the rule must satisfy

  // A rule that settles a finished match on one score of it, and cannot tell a score from its
  // representative.
  type ScoreRule = (Selection, Score) -> Settled
  type Bound = Selection -> nat

  ghost predicate ByScore(rule: Rule, onScore: ScoreRule, bound: Bound) {
    && (forall s: Selection, m: MatchState :: m.status == Finished && ScoreFor(s, m).Some?
          ==> rule(s, m) == onScore(s, ScoreFor(s, m).value))
    && (forall s: Selection, m: MatchState, n: MatchState ::
          m.status == n.status == Finished && ScoreFor(s, m) == ScoreFor(s, n) ==> rule(s, m) == rule(s, n))
    && (forall s, score, margins, limit: nat :: Natural(score) && bound(s) < limit && InRegime(s, margins)
          ==> onScore(s, score) == onScore(s, Representative(score, margins, limit)))
    && (forall s, score, limit: nat :: Natural(score) && bound(s) < limit && IsCount(s)
          ==> onScore(s, score) == onScore(s, Clamped(score, limit)))
  }

  lemma SettlesByScore()
    ensures ByScore(Settle, SettleScore, SelectionBound)
  {
    forall s, score, margins, limit: nat | Natural(score) && SelectionBound(s) < limit && InRegime(s, margins)
      ensures SettleScore(s, score) == SettleScore(s, Representative(score, margins, limit))
    {
      RepresentativeSettles(s, score, margins, limit);
    }
    forall s, score, limit: nat | Natural(score) && SelectionBound(s) < limit && IsCount(s)
      ensures SettleScore(s, score) == SettleScore(s, Clamped(score, limit))
    {
      ClampSettles(s, score, limit);
    }
  }

  lemma PartScore(s: Selection, p: Point)
    ensures ScoreFor(s, AsMatch(p)) == ScoreFor(s, AsMatch(PartFor(s, p)))
  {
  }

  lemma SettleFits()
    ensures NeverThrows(Settle) && Local(Settle)
  {
    forall s, m ensures Settle(s, m) != Threw {
      SettleNeverThrows(s, m);
    }
    SettlesByScore();
    ByScoreIsLocal(Settle, SettleScore, SelectionBound);
  }

  lemma ByScoreIsLocal(rule: Rule, onScore: ScoreRule, bound: Bound)
    requires ByScore(rule, onScore, bound)
    ensures Local(rule)
  {
    forall s, p ensures ResultOf(rule, s, AsMatch(p)) == ResultOf(rule, s, AsMatch(PartFor(s, p))) {
      PartScore(s, p);
      assert rule(s, AsMatch(p)) == rule(s, AsMatch(PartFor(s, p)));
    }
  }

  // A selection is modelled exactly when it is in scope and settles on every finished match.
  lemma ModelledSettles(s: Selection, m: MatchState)
    requires RealMatch(m) && InScope(s)
    ensures Settle(s, m).Settled? <==> Modelled(Settle, s)
  {
    var score := RealScore(s, m);
    assert RealMatch(PROBE);
    var zero := RealScore(s, PROBE);
    SettlingIgnoresScore(s, score, zero);
  }

  // ---------------------------------------------------------------- grid points are real

  function OrOrigin(score: Option<Score>): Score {
    if score.Some? then score.value else ORIGIN
  }

  function RealPoint(p: Point): MatchState {
    MatchState(Finished, Some(p.full), Some(OrOrigin(p.first)), None, None, None,
               Some(OrOrigin(p.corners)), Some(OrOrigin(p.cards)))
  }

  ghost predicate AllInScope(known: seq<Selection>) {
    forall s :: s in known ==> InScope(s)
  }

  lemma GridIsReal(rule: Rule, onScore: ScoreRule, bound: Bound, known: seq<Selection>, limits: Limits, p: Point)
    requires ByScore(rule, onScore, bound) && AllInScope(known) && InGrid(known, limits, p)
    ensures RealMatch(RealPoint(p))
    ensures Agree(rule, known, AsMatch(p), RealPoint(p))
  {
    forall s | s in known ensures ResultOf(rule, s, AsMatch(p)) == ResultOf(rule, s, RealPoint(p)) {
      GridHasPart(known, limits, p, s);
      RealPointScore(s, p);
      assert rule(s, AsMatch(p)) == rule(s, RealPoint(p));
    }
  }

  // A goalless match, as the grid of these selections has it.
  function OriginOf(known: seq<Selection>): Point {
    Point(ORIGIN, if |Halves(Goals(known))| > 0 then Some(ORIGIN) else None,
          if |CornerSelections(known)| > 0 then Some(ORIGIN) else None,
          if |CardSelections(known)| > 0 then Some(ORIGIN) else None)
  }

  lemma OriginInGrid(known: seq<Selection>, limits: Limits)
    ensures InGrid(known, limits, OriginOf(known))
  {
    if |Goals(known)| == 0 {
      assert |Halves(Goals(known))| == 0;
    }
  }

  // What a selection settles on is there.
  predicate HasPart(s: Selection, p: Point) {
    if s.family == Corners then p.corners.Some?
    else if s.family == Cards then p.cards.Some?
    else IsHalf(s.period) ==> p.first.Some?
  }

  lemma RealPointScore(s: Selection, p: Point)
    requires InScope(s) && HasPart(s, p)
    ensures ScoreFor(s, AsMatch(p)) == ScoreFor(s, RealPoint(p))
  {
  }

  lemma GridHasPart(known: seq<Selection>, limits: Limits, p: Point, s: Selection)
    requires s in known && InGrid(known, limits, p)
    ensures HasPart(s, p)
  {
    if s.family == Corners {
      assert s in CornerSelections(known);
    } else if s.family == Cards {
      assert s in CardSelections(known);
    } else if IsHalf(s.period) {
      assert s in Halves(Goals(known));
    }
  }

  // ---------------------------------------------------------------- real matches reach the grid

  // All goal selections are on one period, and settle on the margin or on coordinates alike.
  ghost predicate OneShape(known: seq<Selection>, period: Period, margins: bool) {
    forall s :: s in known && !IsCount(s) ==> s.period == period && InRegime(s, margins)
  }

  // Every limit lies past the boundary of each selection it is for.
  ghost predicate Roomy(known: seq<Selection>, bound: Bound, limits: Limits) {
    forall s :: s in known ==>
      if s.family == Corners then bound(s) < limits.corners
      else if s.family == Cards then bound(s) < limits.cards
      else bound(s) < limits.full && (IsHalf(s.period) ==> bound(s) < limits.first)
  }

  // The goal point whose score of the period is r.
  function GoalPointFor(period: Period, r: Score): Point {
    match period
    case FirstHalf => Point(r, Some(r), None, None)
    case SecondHalf => Point(r, Some(ORIGIN), None, None)
    case _ => Point(r, None, None, None)
  }

  lemma GoalPointScore(period: Period, r: Score)
    requires period == FullMatch || IsHalf(period)
    ensures PeriodScore(AsMatch(GoalPointFor(period, r)), period) == Some(r)
  {
  }

  lemma RealGoals(rule: Rule, onScore: ScoreRule, bound: Bound, known: seq<Selection>, limits: Limits,
      period: Period, margins: bool, m: MatchState) returns (p: Point)
    requires ByScore(rule, onScore, bound)
    requires AllInScope(known) && OneShape(known, period, margins) && Roomy(known, bound, limits) && RealMatch(m)
    ensures InGoalGrid(Goals(known), limits, p)
    ensures Agree(rule, Goals(known), AsMatch(p), m)
  {
    var goals := Goals(known);
    if |goals| == 0 {
      return NOTHING;
    }
    assert goals[0] in goals;
    var score := RealScore(goals[0], m);
    var limit: nat := if IsHalf(period) then Min(limits.full, limits.first) else limits.full;
    var r := Representative(score, margins, limit);
    p := GoalPointFor(period, r);
    HalvesOf(goals, period);
    GoalsOnRepresentative(rule, onScore, bound, goals, period, margins, limit, m, score);
  }

  lemma GoalsOnRepresentative(rule: Rule, onScore: ScoreRule, bound: Bound, goals: seq<Selection>,
      period: Period, margins: bool, limit: nat, m: MatchState, score: Score)
    requires ByScore(rule, onScore, bound) && (period == FullMatch || IsHalf(period))
    requires forall s :: s in goals ==> !IsCount(s) && s.period == period && InRegime(s, margins) && bound(s) < limit
    requires m.status == Finished && PeriodScore(m, period) == Some(score) && Natural(score)
    ensures Agree(rule, goals, AsMatch(GoalPointFor(period, Representative(score, margins, limit))), m)
  {
    var r := Representative(score, margins, limit);
    var p := GoalPointFor(period, r);
    GoalPointScore(period, r);
    forall s | s in goals ensures ResultOf(rule, s, AsMatch(p)) == ResultOf(rule, s, m) {
      assert onScore(s, score) == onScore(s, r);
    }
  }

  lemma HalvesOf(goals: seq<Selection>, period: Period)
    requires |goals| > 0 && forall s :: s in goals ==> s.period == period
    ensures |Halves(goals)| > 0 <==> IsHalf(period)
  {
    assert goals[0] in goals;
    assert IsHalf(period) ==> goals[0] in Halves(goals);
    assert |Halves(goals)| > 0 ==> Halves(goals)[0] in goals;
  }

  lemma RealCounts(rule: Rule, onScore: ScoreRule, bound: Bound, counted: seq<Selection>, corners: bool, limit: nat,
      m: MatchState) returns (p: Point)
    requires ByScore(rule, onScore, bound) && RealMatch(m)
    requires forall s :: s in counted ==> s.family == (if corners then Corners else Cards) && bound(s) < limit
    ensures InCountGrid(counted, corners, limit, p)
    ensures Agree(rule, counted, AsMatch(p), m)
  {
    if |counted| == 0 {
      return NOTHING;
    }
    var score := if corners then m.corners.value else m.cards.value;
    var r := Clamped(score, limit);
    p := CountPoint(corners, r);
    forall s | s in counted ensures ResultOf(rule, s, AsMatch(p)) == ResultOf(rule, s, m) {
      assert onScore(s, score) == onScore(s, Clamped(score, limit));
    }
  }

  // Every finished match, however large its scores, settles every selection as some grid point does.
  lemma RealReachesGrid(rule: Rule, onScore: ScoreRule, bound: Bound, known: seq<Selection>, limits: Limits,
      period: Period, margins: bool, m: MatchState) returns (p: Point)
    requires ByScore(rule, onScore, bound)
    requires AllInScope(known) && OneShape(known, period, margins) && Roomy(known, bound, limits) && RealMatch(m)
    ensures InGrid(known, limits, p)
    ensures Agree(rule, known, AsMatch(p), m)
  {
    ByScoreIsLocal(rule, onScore, bound);
    var g := RealGoals(rule, onScore, bound, known, limits, period, margins, m);
    var c := RealCounts(rule, onScore, bound, CornerSelections(known), true, limits.corners, m);
    var k := RealCounts(rule, onScore, bound, CardSelections(known), false, limits.cards, m);
    p := Combine(g, c, k);
    CombinationsInGrid(known, limits, g, c, k);
    GridParts(Goals(known), [], true, limits, 0, g);
    GridParts([], CornerSelections(known), true, limits, limits.corners, c);
    GridParts([], CardSelections(known), false, limits, limits.cards, k);
    forall s | s in known ensures ResultOf(rule, s, AsMatch(p)) == ResultOf(rule, s, m) {
      PartSettles(rule, known, g, c, k, m, s);
    }
  }

  lemma PartSettles(rule: Rule, known: seq<Selection>, g: Point, c: Point, k: Point, m: MatchState, s: Selection)
    requires Local(rule) && s in known && g == GoalPart(g) && c == CornerPart(c) && k == CardPart(k)
    requires Agree(rule, Goals(known), AsMatch(g), m)
    requires Agree(rule, CornerSelections(known), AsMatch(c), m)
    requires Agree(rule, CardSelections(known), AsMatch(k), m)
    ensures ResultOf(rule, s, AsMatch(Combine(g, c, k))) == ResultOf(rule, s, m)
  {
    var p := Combine(g, c, k);
    assert ResultOf(rule, s, AsMatch(p)) == ResultOf(rule, s, AsMatch(PartFor(s, p)));
    if s.family == Corners {
      assert s in CornerSelections(known) && PartFor(s, p) == c;
    } else if s.family == Cards {
      assert s in CardSelections(known) && PartFor(s, p) == k;
    } else {
      assert s in Goals(known) && PartFor(s, p) == g;
    }
  }

  // ---------------------------------------------------------------- the model is exact

  // The vector of a match: every selection settles, to these results.
  ghost predicate SettlesTo(known: seq<Selection>, m: MatchState, v: seq<SettlementResult>) {
    AllSettled(Vector(Settle, known, m)) && Values(Vector(Settle, known, m)) == v
  }

  ghost predicate ReallyReached(known: seq<Selection>, v: seq<SettlementResult>) {
    exists m :: RealMatch(m) && SettlesTo(known, m, v)
  }

  // Every state is reached by a finished match, for any mixture of selections.
  lemma StatesAreReal(known: seq<Selection>, limits: Limits, states: seq<OutcomeState>, v: seq<SettlementResult>)
    requires AllInScope(known) && ModelOf(Settle, known, limits, states) && HasState(states, v)
    ensures ReallyReached(known, v)
  {
    var i :| 0 <= i < |states| && states[i].vector == v;
    var p := states[i].point;
    assert Witnessed(Settle, known, limits, states[i]);
    SettlesByScore();
    GridIsReal(Settle, SettleScore, SelectionBound, known, limits, p);
    AgreeingVectors(Settle, known, AsMatch(p), RealPoint(p));
    assert RealMatch(RealPoint(p)) && SettlesTo(known, RealPoint(p), v);
  }

  lemma RealIsState(known: seq<Selection>, limits: Limits, period: Period, margins: bool,
      states: seq<OutcomeState>, m: MatchState, v: seq<SettlementResult>)
    requires |known| > 0 && AllInScope(known) && ModelOf(Settle, known, limits, states)
    requires OneShape(known, period, margins) && Roomy(known, SelectionBound, limits)
    requires RealMatch(m) && SettlesTo(known, m, v)
    ensures HasState(states, v)
  {
    SettlesByScore();
    var p := RealReachesGrid(Settle, SettleScore, SelectionBound, known, limits, period, margins, m);
    AgreeingVectors(Settle, known, AsMatch(p), m);
    assert Reaches(Settle, known, states, p);
  }

  // On one period and one kind of market, below the caps, the finite model is exact: its vectors
  // are the settlement vectors of all finished matches, no more and no fewer.
  lemma ModelIsExact(known: seq<Selection>, limits: Limits, period: Period, margins: bool,
      states: seq<OutcomeState>, v: seq<SettlementResult>)
    requires |known| > 0 && AllInScope(known) && ModelOf(Settle, known, limits, states)
    requires OneShape(known, period, margins) && Roomy(known, SelectionBound, limits)
    ensures HasState(states, v) <==> ReallyReached(known, v)
  {
    if HasState(states, v) {
      StatesAreReal(known, limits, states, v);
    }
    if ReallyReached(known, v) {
      var m :| RealMatch(m) && SettlesTo(known, m, v);
      RealIsState(known, limits, period, margins, states, m, v);
    }
  }

  // ---------------------------------------------------------------- where the grid is too small

  // Over n on the home count, and home plus n.
  function MixedPair(line: string): seq<Selection> {
    [Selection(TeamTotal, Standard, FullMatch, Some(HomeTeam), Some(line), Over),
     Selection(AsianHandicap, Handicap, FullMatch, Some(HomeTeam), Some(line), Home)]
  }

  lemma MixedPairPushes(line: string, n: nat, m: MatchState, score: Score)
    requires ParseCanonicalLine(line) == Some(n as real)
    requires m.status == Finished && m.fullTime == Some(score)
    ensures SettlesTo(MixedPair(line), m, [Push, Push]) <==> score == Score(n, 2 * n)
    ensures AllSettled(Vector(Settle, MixedPair(line), m))
  {
    var pair := MixedPair(line);
    var v := Vector(Settle, pair, m);
    TotalOnQuarterStep(score.home, line, n as real, 4 * n, Over);
    HandicapOnQuarterStep(Margin(score), line, n as real, 4 * n, HomeTeam);
    assert v[0] == Some(AsianResult(TotalEdge(score.home, n as real, Over)));
    assert v[1] == Some(AsianResult(HandicapEdge(Margin(score), n as real, HomeTeam)));
    assert Values(v) == [Push, Push] <==> v == [Some(Push), Some(Push)];
  }

  // A handicap beside a team total on a whole line n: the score n-2n pushes both, and the grid holds it if and
  // only if it reaches 2n; one that ends at max(n + 1, 2) does so for n at most 1.
  lemma MixedMarketsEscape(line: string, n: nat, limits: Limits, states: seq<OutcomeState>)
    requires ParseCanonicalLine(line) == Some(n as real) && ModelOf(Settle, MixedPair(line), limits, states)
    ensures ReallyReached(MixedPair(line), [Push, Push])
    ensures HasState(states, [Push, Push]) <==> limits.full >= 2 * n
    ensures limits.full == Max(n + 1, 2) ==> (HasState(states, [Push, Push]) <==> n <= 1)
  {
    var pair := MixedPair(line);
    var p := Point(Score(n, 2 * n), None, None, None);
    MixedPairPushes(line, n, RealPoint(p), p.full);
    assert RealMatch(RealPoint(p)) && SettlesTo(pair, RealPoint(p), [Push, Push]);
    MixedPairGrid(line, limits, p);
    MixedPairPushes(line, n, AsMatch(p), p.full);
    StateExactlyWhen(pair, limits, states, [Push, Push]);
    if limits.full < 2 * n {
      forall q | InGrid(pair, limits, q) ensures !SettlesTo(pair, AsMatch(q), [Push, Push]) {
        MixedPairGrid(line, limits, q);
        MixedPairPushes(line, n, AsMatch(q), q.full);
      }
    }
  }

  lemma MixedPairGrid(line: string, limits: Limits, p: Point)
    ensures InGrid(MixedPair(line), limits, p) <==> InSquare(p.full, limits.full) && p == Point(p.full, None, None, None)
  {
    var pair := MixedPair(line);
    assert pair[0] in Goals(pair);
    HasElement(Halves(Goals(pair)));
    HasElement(CornerSelections(pair));
    HasElement(CardSelections(pair));
  }

  // A vector is a state exactly when some grid point settles to it.
  lemma StateExactlyWhen(known: seq<Selection>, limits: Limits, states: seq<OutcomeState>, v: seq<SettlementResult>)
    requires |known| > 0 && ModelOf(Settle, known, limits, states)
    ensures HasState(states, v) <==> exists p :: InGrid(known, limits, p) && SettlesTo(known, AsMatch(p), v)
  {
    if HasState(states, v) {
      var i :| 0 <= i < |states| && states[i].vector == v;
      assert Witnessed(Settle, known, limits, states[i]);
      assert SettlesTo(known, AsMatch(states[i].point), v);
    }
    if exists p :: InGrid(known, limits, p) && SettlesTo(known, AsMatch(p), v) {
      var p :| InGrid(known, limits, p) && SettlesTo(known, AsMatch(p), v);
      assert Reaches(Settle, known, states, p);
    }
  }

  // Over a line on the home count of a period.
  function HomeOver(period: Period, line: string): Selection {
    Selection(TeamTotal, Standard, period, Some(HomeTeam), Some(line), Over)
  }

  lemma OverHalf(line: string, n: nat, count: int)
    requires ParseCanonicalLine(line) == Some(n as real + 0.5)
    ensures SettleTotal(count, Some(line), Over).Settled?
    ensures SettleTotal(count, Some(line), Over).result == if count > n then FullWin else FullLoss
  {
    TotalOnQuarterStep(count, line, n as real + 0.5, 4 * n + 2, Over);
  }

  // On any period the home count decides.
  ghost predicate HomeDecides(onScore: ScoreRule, line: string, n: nat) {
    forall period, score :: HomeWins(onScore(HomeOver(period, line), score), score.home > n)
  }

  ghost predicate HomeWins(settled: Settled, won: bool) {
    settled.Settled? && settled.result == if won then FullWin else FullLoss
  }

  lemma HalfLineDecides(line: string, n: nat)
    requires ParseCanonicalLine(line) == Some(n as real + 0.5)
    ensures HomeDecides(SettleScore, line, n)
  {
    forall period, score ensures HomeWins(SettleScore(HomeOver(period, line), score), score.home > n) {
      OverHalf(line, n, score.home);
    }
  }

  lemma DecidedBy(rule: Rule, onScore: ScoreRule, bound: Bound, period: Period, line: string, n: nat, m: MatchState, score: Score)
    requires ByScore(rule, onScore, bound) && HomeDecides(onScore, line, n)
    requires m.status == Finished && PeriodScore(m, period) == Some(score)
    ensures ResultOf(rule, HomeOver(period, line), m) == Some(if score.home > n then FullWin else FullLoss)
  {
    assert rule(HomeOver(period, line), m) == onScore(HomeOver(period, line), score);
    assert HomeWins(onScore(HomeOver(period, line), score), score.home > n);
  }

  lemma HomeOverWins(period: Period, line: string, n: nat, m: MatchState, score: Score)
    requires ParseCanonicalLine(line) == Some(n as real + 0.5)
    requires m.status == Finished && PeriodScore(m, period) == Some(score)
    ensures ResultOf(Settle, HomeOver(period, line), m) == Some(if score.home > n then FullWin else FullLoss)
  {
    SettlesByScore();
    HalfLineDecides(line, n);
    DecidedBy(Settle, SettleScore, SelectionBound, period, line, n, m, score);
  }

  lemma OneSettles(s: Selection, m: MatchState, r: SettlementResult)
    requires ResultOf(Settle, s, m).Some?
    ensures SettlesTo([s], m, [r]) <==> ResultOf(Settle, s, m) == Some(r)
  {
    var v := Vector(Settle, [s], m);
    assert v == [ResultOf(Settle, s, m)];
    assert Values(v) == [r] <==> v[0] == Some(r);
  }

  // A grid cut below a line misses what lies above it: over n and a half is won by a real match, and by a
  // state if and only if the grid reaches past n.
  lemma CutShortExactlyWhen(line: string, n: nat, limits: Limits, states: seq<OutcomeState>)
    requires ParseCanonicalLine(line) == Some(n as real + 0.5)
    requires ModelOf(Settle, [HomeOver(FullMatch, line)], limits, states)
    ensures ReallyReached([HomeOver(FullMatch, line)], [FullWin])
    ensures HasState(states, [FullWin]) <==> limits.full > n
  {
    var known, p := [HomeOver(FullMatch, line)], Point(Score(n + 1, 0), None, None, None);
    HomeOverWins(FullMatch, line, n, RealPoint(p), p.full);
    OneSettles(known[0], RealPoint(p), FullWin);
    assert RealMatch(RealPoint(p)) && SettlesTo(known, RealPoint(p), [FullWin]);
    StateExactlyWhen(known, limits, states, [FullWin]);
    forall q ensures InGrid(known, limits, q) && SettlesTo(known, AsMatch(q), [FullWin]) <==>
                     InSquare(q.full, limits.full) && q == Point(q.full, None, None, None) && q.full.home > n
    {
      OneInGrid(line, limits, q);
      HomeOverWins(FullMatch, line, n, AsMatch(q), q.full);
      OneSettles(known[0], AsMatch(q), FullWin);
    }
    assert InSquare(p.full, limits.full) <==> limits.full > n;
  }

  lemma OneInGrid(line: string, limits: Limits, p: Point)
    ensures InGrid([HomeOver(FullMatch, line)], limits, p)
        <==> InSquare(p.full, limits.full) && p == Point(p.full, None, None, None)
  {
    var known := [HomeOver(FullMatch, line)];
    assert known[0] in Goals(known);
    HasElement(Halves(Goals(known)));
    HasElement(CornerSelections(known));
    HasElement(CardSelections(known));
  }

  lemma OneBound(line: string, n: nat)
    requires ParseCanonicalLine(line) == Some(n as real + 0.5)
    ensures MaxBound([HomeOver(FullMatch, line)]) == MaxBound(Goals([HomeOver(FullMatch, line)])) == n + 1
  {
    var s := HomeOver(FullMatch, line);
    assert Goals([s]) == [s] by {
      FilterSnoc((s: Selection) => !IsCount(s), [], s);
      assert [] + [s] == [s];
    }
    assert SelectionBound(s) == n + 1;
    assert [s][..0] == [];
  }

  // Without an override the cap is met from over 12 and a half on; an override cuts wherever it is set.
  lemma CapsAndOverridesCutShort(line: string, n: nat, options: Options, states: seq<OutcomeState>)
    requires ParseCanonicalLine(line) == Some(n as real + 0.5)
    requires var known := [HomeOver(FullMatch, line)]; ModelOf(Settle, known, LimitsOf(known, options), states)
    ensures ReallyReached([HomeOver(FullMatch, line)], [FullWin])
    ensures HasState(states, [FullWin]) <==> if options.maxGoals.Some? then options.maxGoals.value > n else n < GOAL_CAP
  {
    var limits := LimitsOf([HomeOver(FullMatch, line)], options);
    OneBound(line, n);
    FullLimit([HomeOver(FullMatch, line)], options, n + 1);
    ReachesPast(options.maxGoals, n);
    CutShortExactlyWhen(line, n, limits, states);
  }

  lemma FullLimit(known: seq<Selection>, options: Options, bound: nat)
    requires MaxBound(Goals(known)) == bound
    ensures LimitsOf(known, options).full == ResolveLimit(options.maxGoals, bound, GOAL_CAP)
  {
  }

  lemma ReachesPast(explicit: Option<int>, n: nat)
    ensures ResolveLimit(explicit, n + 1, GOAL_CAP) > n <==> if explicit.Some? then explicit.value > n else n < GOAL_CAP
  {
  }

  // ---------------------------------------------------------------- two periods

  // Over n and a half in either half.
  function HalvesPair(line: string): seq<Selection> {
    [HomeOver(FirstHalf, line), HomeOver(SecondHalf, line)]
  }

  lemma TwoSettle(rule: Rule, s: Selection, t: Selection, m: MatchState, r: SettlementResult, q: SettlementResult)
    requires ResultOf(rule, s, m).Some? && ResultOf(rule, t, m).Some?
    ensures AllSettled(Vector(rule, [s, t], m))
    ensures Values(Vector(rule, [s, t], m)) == [r, q] <==> ResultOf(rule, s, m) == Some(r) && ResultOf(rule, t, m) == Some(q)
  {
    var v := Vector(rule, [s, t], m);
    assert v == [ResultOf(rule, s, m), ResultOf(rule, t, m)];
    assert Values(v) == [r, q] <==> v == [Some(r), Some(q)];
  }

  lemma HalvesDecidedBy(rule: Rule, onScore: ScoreRule, bound: Bound, line: string, n: nat, m: MatchState, full: Score, first: Score)
    requires ByScore(rule, onScore, bound) && HomeDecides(onScore, line, n)
    requires m.status == Finished && m.fullTime == Some(full) && m.firstHalf == Some(first) && m.secondHalf == None
    ensures AllSettled(Vector(rule, HalvesPair(line), m))
    ensures Values(Vector(rule, HalvesPair(line), m)) == [FullWin, FullWin] <==> first.home > n && full.home - first.home > n
  {
    DecidedBy(rule, onScore, bound, FirstHalf, line, n, m, first);
    DecidedBy(rule, onScore, bound, SecondHalf, line, n, m, Rest(full, first));
    TwoSettle(rule, HomeOver(FirstHalf, line), HomeOver(SecondHalf, line), m, FullWin, FullWin);
  }

  lemma HalvesPairWins(line: string, n: nat, m: MatchState, full: Score, first: Score)
    requires ParseCanonicalLine(line) == Some(n as real + 0.5)
    requires m.status == Finished && m.fullTime == Some(full) && m.firstHalf == Some(first) && m.secondHalf == None
    ensures SettlesTo(HalvesPair(line), m, [FullWin, FullWin]) <==> first.home > n && full.home - first.home > n
  {
    SettlesByScore();
    HalfLineDecides(line, n);
    HalvesDecidedBy(Settle, SettleScore, SelectionBound, line, n, m, full, first);
  }

  lemma HalvesPairGrid(line: string, limits: Limits, p: Point)
    ensures InGrid(HalvesPair(line), limits, p) <==> InGoalSquare(limits.full, true, limits.first, p)
  {
    var pair := HalvesPair(line);
    assert pair[0] in Goals(pair);
    assert pair[0] in Halves(Goals(pair));
    HasElement(CornerSelections(pair));
    HasElement(CardSelections(pair));
  }

  // Two periods of one match: both halves go over n and a half in some real match, and in the grid if and only
  // if it reaches the two together; one that ends a goal past the line does so for n = 0 only.
  lemma MixedPeriodsEscape(line: string, n: nat, limits: Limits, states: seq<OutcomeState>)
    requires ParseCanonicalLine(line) == Some(n as real + 0.5) && ModelOf(Settle, HalvesPair(line), limits, states)
    ensures ReallyReached(HalvesPair(line), [FullWin, FullWin])
    ensures HasState(states, [FullWin, FullWin]) <==> limits.full >= 2 * n + 2 && limits.first > n
    ensures limits.full == limits.first == n + 2 ==> (HasState(states, [FullWin, FullWin]) <==> n == 0)
  {
    var pair := HalvesPair(line);
    var full, first := Score(2 * n + 2, 0), Score(n + 1, 0);
    var p := Point(full, Some(first), None, None);
    HalvesPairWins(line, n, RealPoint(p), full, first);
    assert RealMatch(RealPoint(p)) && SettlesTo(pair, RealPoint(p), [FullWin, FullWin]);
    StateExactlyWhen(pair, limits, states, [FullWin, FullWin]);
    if limits.full >= 2 * n + 2 && limits.first > n {
      HalvesPairGrid(line, limits, p);
      HalvesPairWins(line, n, AsMatch(p), full, first);
      assert InGrid(pair, limits, p) && SettlesTo(pair, AsMatch(p), [FullWin, FullWin]);
    } else {
      forall q | InGrid(pair, limits, q) ensures !SettlesTo(pair, AsMatch(q), [FullWin, FullWin]) {
        HalvesPairGrid(line, limits, q);
        HalvesPairWins(line, n, AsMatch(q), q.full, q.first.value);
      }
    }
  }
}
