// The price prefilter for two-way complements: when discarding on prices alone is safe.

module PriceFilter {
  import opened Lines
  import opened Settlement
  import opened Coordinates
  import opened ScoreGrid
  import opened StateModel
  import opened ScoreSpace
  import opened Coverage
  import opened CoverageTheorems
  import opened Scan

  // ---------------------------------------------------------------- matches with a given score

  // A finished match on which selections of this family and period settle on `score`.
  function MatchWith(s: Selection, score: Score): MatchState {
    if s.family == Corners then RealPoint(CountPoint(true, score))
    else if s.family == Cards then RealPoint(CountPoint(false, score))
    else RealPoint(GoalPointFor(s.period, score))
  }

  lemma MatchWithScore(s: Selection, t: Selection, score: Score)
    requires InScope(s) && s.family == t.family && s.period == t.period && Natural(score)
    ensures RealMatch(MatchWith(s, score)) && ScoreFor(t, MatchWith(s, score)) == Some(score)
  {
  }

  // ---------------------------------------------------------------- returns of two stakes

  function ReturnOf(a: Leg, b: Leg, x: real, y: real, ra: SettlementResult, rb: SettlementResult): real {
    x * Multiplier(ra, a.odds) + y * Multiplier(rb, b.odds)
  }

  // Some finished match returns no more than was staked.
  ghost predicate SomeScoreReturnsAtMostTheStake(rule: Rule, a: Leg, b: Leg, x: real, y: real) {
    exists m :: RealMatch(m) && ReturnsAtMostTheStake(rule, a, b, x, y, m)
  }

  ghost predicate ReturnsAtMostTheStake(rule: Rule, a: Leg, b: Leg, x: real, y: real, m: MatchState) {
    && rule(a.selection, m).Settled? && rule(b.selection, m).Settled?
    && ReturnOf(a, b, x, y, rule(a.selection, m).result, rule(b.selection, m).result) <= x + y
  }

  lemma ShareOf(x: real, a: real, p: real, total: real)
    requires a > 0.0 && p == 1.0 / a && x * a > total
    ensures total * p < x
  {
    assert a * p == 1.0;
    assert x == x * a * p;
    assert (x * a - total) * p > 0.0;
  }

  lemma BothPay(x: real, y: real, a: real, b: real, p: real, q: real, total: real)
    requires a > 0.0 && b > 0.0 && p == 1.0 / a && q == 1.0 / b && total == x + y >= 0.0
    requires x * a > total && y * b > total
    ensures p + q < 1.0
  {
    ShareOf(x, a, p, total);
    ShareOf(y, b, q, total);
    assert total * (p + q - 1.0) == total * p + total * q - total;
    if p + q >= 1.0 {
      ProductSign(total, p + q - 1.0);
    }
  }

  lemma ProductSign(a: real, b: real)
    requires a >= 0.0 && b >= 0.0
    ensures a * b >= 0.0
  {
  }

  // If both legs paid more than the total, the reciprocals would add up to less than 1.
  lemma OneFallsShort(x: real, y: real, a: real, b: real)
    requires x >= 0.0 && y >= 0.0 && a > 0.0 && b > 0.0 && 1.0 / a + 1.0 / b >= 1.0
    ensures x * a <= x + y || y * b <= x + y
  {
    if x * a > x + y && y * b > x + y {
      BothPay(x, y, a, b, 1.0 / a, 1.0 / b, x + y);
    }
  }

  lemma MirroredReturn(x: real, y: real, a: real, b: real, r: SettlementResult)
    requires x >= 0.0 && y >= 0.0 && x * a <= x + y && (r == FullWin || r == HalfWin || r == Push)
    ensures x * Multiplier(r, a) + y * Multiplier(Mirror(r), b) <= x + y
  {
    if r == HalfWin {
      assert x * ((a + 1.0) / 2.0) == (x * a + x) / 2.0;
    }
  }

  // The match favours a: a does not lose there, and what a wins b loses.
  ghost predicate Favors(rule: Rule, a: Selection, b: Selection, m: MatchState) {
    && RealMatch(m) && rule(a, m).Settled? && rule(b, m).Settled?
    && rule(b, m).result == Mirror(rule(a, m).result)
    && rule(a, m).result in {FullWin, HalfWin, Push}
  }

  ghost predicate BothLose(rule: Rule, a: Selection, b: Selection, m: MatchState) {
    && RealMatch(m) && rule(a, m).Settled? && rule(b, m).Settled?
    && rule(a, m).result == rule(b, m).result == FullLoss
  }

  // A match for either side, or one that loses both legs.
  ghost predicate TwoSided(rule: Rule, a: Selection, b: Selection) {
    || (exists m, n :: Favors(rule, a, b, m) && Favors(rule, b, a, n))
    || (exists m :: BothLose(rule, a, b, m))
  }

  lemma NoSplitBeats(rule: Rule, a: Leg, b: Leg, x: real, y: real)
    requires TwoSided(rule, a.selection, b.selection) && x >= 0.0 && y >= 0.0
    requires a.odds > 0.0 && b.odds > 0.0 && 1.0 / a.odds + 1.0 / b.odds >= 1.0
    ensures SomeScoreReturnsAtMostTheStake(rule, a, b, x, y)
  {
    if m :| BothLose(rule, a.selection, b.selection, m) {
      assert ReturnsAtMostTheStake(rule, a, b, x, y, m);
    } else {
      var m, n :| Favors(rule, a.selection, b.selection, m) && Favors(rule, b.selection, a.selection, n);
      OneFallsShort(x, y, a.odds, b.odds);
      if x * a.odds <= x + y {
        MirroredReturn(x, y, a.odds, b.odds, rule(a.selection, m).result);
        assert ReturnsAtMostTheStake(rule, a, b, x, y, m);
      } else {
        MirroredReturn(y, x, b.odds, a.odds, rule(b.selection, n).result);
        assert ReturnsAtMostTheStake(rule, a, b, x, y, n);
      }
    }
  }

  // ---------------------------------------------------------------- totals

  predicate IsTotal(f: Family) {
    f == MatchTotal || f == AsianTotal || f == TeamTotal || f == TeamAsianTotal || f == Corners || f == Cards
  }

  // What a total counts.
  function Counted(s: Selection, score: Score): int {
    if s.family != TeamTotal && s.family != TeamAsianTotal then Total(score)
    else if s.participant.Some? then TeamCount(score, s.participant.value)
    else 0
  }

  lemma TotalNeedsLine(actual: int, line: Option<string>, outcome: Outcome)
    requires SettleTotal(actual, line, outcome).Settled?
    ensures line.Some? && ParseCanonicalLine(line.value).Some? && (outcome == Over || outcome == Under)
  {
  }

  lemma TotalCounts(s: Selection, score: Score)
    requires IsTotal(s.family) && SettleScore(s, score).Settled?
    ensures SettleScore(s, score) == SettleTotal(Counted(s, score), s.line, s.outcome)
  {
    if s.family == TeamTotal || s.family == TeamAsianTotal {
      assert SettleScore(s, score) == SettleTeamTotal(s, score);
    }
  }

  lemma TotalSettles(s: Selection, score: Score)
    requires IsTotal(s.family) && SettleScore(s, score).Settled?
    ensures SettleScore(s, score) == SettleTotal(Counted(s, score), s.line, s.outcome)
    ensures s.line.Some? && ParseCanonicalLine(s.line.value).Some? && (s.outcome == Over || s.outcome == Under)
  {
    TotalCounts(s, score);
    TotalNeedsLine(Counted(s, score), s.line, s.outcome);
  }

  // The components of a line have the sign of the line, and the lower one is negative with it.
  lemma ComponentSigns(value: real)
    ensures value >= 0.0 ==> forall i :: 0 <= i < |Components(value)| ==> Components(value)[i] >= 0.0
    ensures value < 0.0 ==> Components(value)[0] < 0.0 && forall i :: 0 <= i < |Components(value)| ==> Components(value)[i] <= 0.0
  {
    if KindOf(value) == Quarter {
      var cents := Round(value * 100.0);
      QuarterSign(value, cents);
    }
  }

  lemma QuarterSign(value: real, cents: int)
    requires cents == Round(value * 100.0) && (cents % 100 == 25 || cents % 100 == 75)
    ensures value >= 0.0 ==> cents >= 25
    ensures value < 0.0 ==> cents <= -25
  {
  }

  lemma AllWon(cs: seq<ComponentResult>, c: ComponentResult)
    requires |cs| > 0 && forall i :: 0 <= i < |cs| ==> cs[i] == c
    ensures c == Won ==> FromComponents(cs) == Some(FullWin)
    ensures c == Lost ==> FromComponents(cs) == Some(FullLoss)
  {
    assert cs[0] == c;
  }

  lemma OverPast(actual: int, line: string, value: real)
    requires ParseCanonicalLine(line) == Some(value) && actual > CeilAbs(value)
    ensures SettleTotal(actual, Some(line), Over).Settled?
    ensures SettleTotal(actual, Some(line), Over).result == FullWin
  {
    var _ := ComponentsShape(value);
    AllWon(TotalComponents(actual, Components(value), Over), Won);
  }

  lemma NeverLost(cs: seq<ComponentResult>)
    requires 1 <= |cs| <= 2 && forall i :: 0 <= i < |cs| ==> cs[i] == Won || cs[i] == Pushed
    ensures FromComponents(cs).Some? && FromComponents(cs).value in {FullWin, HalfWin, Push}
    ensures cs[0] == Won ==> FromComponents(cs).value != Push
  {
    if |cs| == 2 {
      assert cs == [cs[0], cs[1]];
      TwoComponents(cs[0], cs[1]);
      OneComponent(cs[0]);
      assert [cs[0]][0] == cs[0];
    } else {
      assert cs == [cs[0]];
    }
  }

  lemma UnderAtZero(line: string, value: real)
    requires ParseCanonicalLine(line) == Some(value) && value >= 0.0
    ensures SettleTotal(0, Some(line), Under).Settled?
    ensures SettleTotal(0, Some(line), Under).result in {FullWin, HalfWin, Push}
  {
    ComponentSigns(value);
    NeverLost(TotalComponents(0, Components(value), Under));
  }

  // On a negative line OVER wins at least half at every count.
  lemma OverBelowZero(actual: int, line: string, value: real)
    requires ParseCanonicalLine(line) == Some(value) && value < 0.0 && actual >= 0
    ensures SettleTotal(actual, Some(line), Over).Settled?
    ensures SettleTotal(actual, Some(line), Over).result in {FullWin, HalfWin}
  {
    ComponentSigns(value);
    NeverLost(TotalComponents(actual, Components(value), Over));
  }

  lemma SidesAt(over: Selection, under: Selection, score: Score, m: MatchState)
    requires IsTotal(over.family) && Complementary(over, under) && over.outcome == Over && m.status == Finished
    requires ScoreFor(over, m) == ScoreFor(under, m) == Some(score)
    requires Settle(over, m).Settled? && Settle(under, m).Settled?
    ensures over.line.Some? && ParseCanonicalLine(over.line.value).Some?
    ensures Settle(over, m) == SettleTotal(Counted(over, score), over.line, Over)
    ensures Settle(under, m) == SettleTotal(Counted(over, score), over.line, Under)
    ensures Settle(under, m).result == Mirror(Settle(over, m).result)
  {
    TotalSettles(over, score);
    TotalSettles(under, score);
    OverUnderMirror(Counted(over, score), over.line.value);
  }

  lemma SettledSides(a: Selection, b: Selection, score: Score) returns (m: MatchState)
    requires Complementary(a, b) && AlwaysSettles(a) && AlwaysSettles(b) && Natural(score)
    ensures RealMatch(m) && ScoreFor(a, m) == ScoreFor(b, m) == Some(score)
    ensures Settle(a, m).Settled? && Settle(b, m).Settled?
  {
    m := MatchWith(a, score);
    MatchWithScore(a, a, score);
    MatchWithScore(a, b, score);
  }

  lemma TotalFavorsOver(over: Selection, under: Selection, value: real) returns (m: MatchState)
    requires IsTotal(over.family) && Complementary(over, under) && over.outcome == Over
    requires AlwaysSettles(over) && AlwaysSettles(under)
    requires over.line.Some? && ParseCanonicalLine(over.line.value) == Some(value)
    ensures Favors(Settle, over, under, m)
  {
    var far := CeilAbs(value) + 1;
    var high := Score(far, far);
    m := SettledSides(over, under, high);
    SidesAt(over, under, high, m);
    CountedFar(over, far, m);
    OverPast(Counted(over, high), over.line.value, value);
  }

  lemma CountedFar(s: Selection, far: nat, m: MatchState)
    requires IsTotal(s.family) && far > 0 && m.status == Finished && ScoreFor(s, m) == Some(Score(far, far))
    requires Settle(s, m).Settled?
    ensures Counted(s, Score(far, far)) >= far
  {
  }

  lemma CountedZero(s: Selection)
    ensures Counted(s, ORIGIN) == 0
  {
  }

  lemma MirrorTwice(r: SettlementResult)
    ensures Mirror(Mirror(r)) == r
  {
  }

  lemma FavorsFrom(rule: Rule, a: Selection, b: Selection, m: MatchState, r: SettlementResult)
    requires RealMatch(m) && rule(a, m).Settled? && rule(b, m).Settled?
    requires rule(a, m).result == r == Mirror(rule(b, m).result) && r in {FullWin, HalfWin, Push}
    ensures Favors(rule, a, b, m)
  {
    MirrorTwice(rule(b, m).result);
  }

  lemma TotalFavorsUnder(over: Selection, under: Selection, value: real) returns (m: MatchState)
    requires IsTotal(over.family) && Complementary(over, under) && over.outcome == Over
    requires AlwaysSettles(over) && AlwaysSettles(under)
    requires over.line.Some? && ParseCanonicalLine(over.line.value) == Some(value) && value >= 0.0
    ensures Favors(Settle, under, over, m)
  {
    m := SettledSides(over, under, ORIGIN);
    SidesAt(over, under, ORIGIN, m);
    CountedZero(over);
    UnderAtZero(over.line.value, value);
    var r := SettleTotal(0, over.line, Under).result;
    MirrorTwice(Settle(over, m).result);
    FavorsFrom(Settle, under, over, m, r);
  }

  // ---------------------------------------------------------------- handicaps

  lemma HandicapFar(margin: int, line: string, value: real, side: Participant)
    requires ParseCanonicalLine(line) == Some(value) && (margin > CeilAbs(value) || -margin > CeilAbs(value))
    ensures SettleHandicap(margin, Some(line), side).Settled?
    ensures SettleHandicap(margin, Some(line), side).result
         == if (side == HomeTeam) == (margin > 0) then FullWin else FullLoss
  {
    var _ := ComponentsShape(value);
    var cs := HandicapComponents(margin, Components(value), side);
    AllWon(cs, if (side == HomeTeam) == (margin > 0) then Won else Lost);
  }

  lemma HandicapAt(s: Selection, score: Score, m: MatchState) returns (value: real)
    requires s.family == AsianHandicap && m.status == Finished && ScoreFor(s, m) == Some(score) && Settle(s, m).Settled?
    ensures s.line.Some? && ParseCanonicalLine(s.line.value) == Some(value)
    ensures Settle(s, m) == SettleHandicap(Margin(score), s.line, HandicapSide(s))
  {
    value := ParseCanonicalLine(s.line.value).value;
  }

  // Past every line on one side.
  function FarScore(value: real, home: bool): Score {
    if home then Score(CeilAbs(value) + 1, 0) else Score(0, CeilAbs(value) + 1)
  }

  lemma HandicapOn(s: Selection, t: Selection, value: real, home: bool) returns (m: MatchState)
    requires s.family == AsianHandicap && Complementary(s, t) && AlwaysSettles(s) && AlwaysSettles(t)
    requires s.line.Some? && ParseCanonicalLine(s.line.value) == Some(value)
    ensures RealMatch(m) && Settle(s, m).Settled? && Settle(t, m).Settled?
    ensures Settle(s, m).result == if (HandicapSide(s) == HomeTeam) == home then FullWin else FullLoss
    ensures Settle(t, m).result == if (HandicapSide(t) == HomeTeam) == home then FullWin else FullLoss
  {
    var score := FarScore(value, home);
    m := SettledSides(s, t, score);
    var _ := HandicapAt(s, score, m);
    var _ := HandicapAt(t, score, m);
    HandicapFar(Margin(score), s.line.value, value, HandicapSide(s));
    HandicapFar(Margin(score), s.line.value, value, HandicapSide(t));
  }

  lemma HandicapTwoSided(s: Selection, t: Selection)
    requires s.family == AsianHandicap && Complementary(s, t) && AlwaysSettles(s) && AlwaysSettles(t)
    ensures TwoSided(Settle, s, t)
  {
    var m0 := SettledSides(s, t, ORIGIN);
    var value := HandicapAt(s, ORIGIN, m0);
    var m := HandicapOn(s, t, value, true);
    var n := HandicapOn(s, t, value, false);
    if HandicapSide(s) == HandicapSide(t) {
      assert BothLose(Settle, s, t, m) || BothLose(Settle, s, t, n);
    } else {
      assert (Favors(Settle, s, t, m) && Favors(Settle, t, s, n)) || (Favors(Settle, s, t, n) && Favors(Settle, t, s, m));
    }
  }

  // ---------------------------------------------------------------- the other markets

  // The outcome wins at a score with the given margin, or with both teams scoring or not.
  predicate WinsOn(s: Selection, score: Score) {
    match s.outcome
    case Home => Margin(score) > 0
    case Away => Margin(score) < 0
    case BttsYes => score.home >= 1 && score.away >= 1
    case _ => !(score.home >= 1 && score.away >= 1)
  }

  lemma PlainAt(s: Selection, score: Score, m: MatchState)
    requires !IsTotal(s.family) && s.family != AsianHandicap && s.outcome != Draw
    requires s.outcome in {Home, Away, BttsYes, BttsNo, Over, Under}
    requires m.status == Finished && ScoreFor(s, m) == Some(score) && Settle(s, m).Settled?
    ensures s.outcome in {Home, Away} || s.outcome in {BttsYes, BttsNo}
    ensures s.outcome in {BttsYes, BttsNo} <==> s.family == Btts
    ensures Settle(s, m).result == if WinsOn(s, score) then FullWin else FullLoss
  {
    WinIfSettles(true);
    WinIfSettles(false);
  }

  lemma PlainOn(s: Selection, t: Selection, score: Score) returns (m: MatchState)
    requires !IsTotal(s.family) && s.family != AsianHandicap && Natural(score)
    requires Complementary(s, t) && AlwaysSettles(s) && AlwaysSettles(t)
    ensures RealMatch(m) && Settle(s, m).Settled? && Settle(t, m).Settled?
    ensures Settle(s, m).result == if WinsOn(s, score) then FullWin else FullLoss
    ensures Settle(t, m).result == if WinsOn(t, score) then FullWin else FullLoss
    ensures s.outcome in {Home, Away} || s.outcome in {BttsYes, BttsNo}
    ensures s.outcome in {BttsYes, BttsNo} <==> s.family == Btts
  {
    m := SettledSides(s, t, score);
    PlainAt(s, score, m);
    PlainAt(t, score, m);
  }

  // Exactly one of two opposite outcomes wins at each of these scores, and each wins at one of them.
  lemma OppositeWins(s: Selection, t: Selection, first: Score, second: Score)
    requires OppositeOutcome(s.outcome, t.outcome)
    requires || (s.outcome in {Home, Away} && first == Score(1, 0) && second == Score(0, 1))
             || (s.outcome in {BttsYes, BttsNo} && first == Score(1, 1) && second == ORIGIN)
    ensures WinsOn(s, first) == WinsOn(t, second) == !WinsOn(t, first) == !WinsOn(s, second)
  {
  }

  lemma PlainTwoSided(s: Selection, t: Selection, first: Score, second: Score)
    requires !IsTotal(s.family) && s.family != AsianHandicap
    requires Complementary(s, t) && AlwaysSettles(s) && AlwaysSettles(t)
    requires first == (if s.family == Btts then Score(1, 1) else Score(1, 0))
    requires second == (if s.family == Btts then ORIGIN else Score(0, 1))
    ensures TwoSided(Settle, s, t)
  {
    var m := PlainOn(s, t, first);
    var n := PlainOn(s, t, second);
    TellingScores(s, t, first, second);
    PlainSides(Settle, s, t, m, n, first, second);
  }

  lemma TellingScores(s: Selection, t: Selection, first: Score, second: Score)
    requires Complementary(s, t)
    requires s.outcome in {Home, Away} || s.outcome in {BttsYes, BttsNo}
    requires s.outcome in {BttsYes, BttsNo} <==> s.family == Btts
    requires first == (if s.family == Btts then Score(1, 1) else Score(1, 0))
    requires second == (if s.family == Btts then ORIGIN else Score(0, 1))
    ensures OppositeOutcome(s.outcome, t.outcome)
    ensures || (s.outcome in {Home, Away} && first == Score(1, 0) && second == Score(0, 1))
            || (s.outcome in {BttsYes, BttsNo} && first == Score(1, 1) && second == ORIGIN)
  {
  }

  lemma PlainSides(rule: Rule, s: Selection, t: Selection, m: MatchState, n: MatchState, first: Score, second: Score)
    requires RealMatch(m) && rule(s, m).Settled? && rule(t, m).Settled?
    requires RealMatch(n) && rule(s, n).Settled? && rule(t, n).Settled?
    requires rule(s, m).result == if WinsOn(s, first) then FullWin else FullLoss
    requires rule(t, m).result == if WinsOn(t, first) then FullWin else FullLoss
    requires rule(s, n).result == if WinsOn(s, second) then FullWin else FullLoss
    requires rule(t, n).result == if WinsOn(t, second) then FullWin else FullLoss
    requires OppositeOutcome(s.outcome, t.outcome)
    requires || (s.outcome in {Home, Away} && first == Score(1, 0) && second == Score(0, 1))
             || (s.outcome in {BttsYes, BttsNo} && first == Score(1, 1) && second == ORIGIN)
    ensures TwoSided(rule, s, t)
  {
    OppositeWins(s, t, first, second);
    SidesWin(rule, s, t, m, n, WinsOn(s, first));
  }

  lemma SidesWin(rule: Rule, s: Selection, t: Selection, m: MatchState, n: MatchState, first: bool)
    requires RealMatch(m) && rule(s, m).Settled? && rule(t, m).Settled?
    requires RealMatch(n) && rule(s, n).Settled? && rule(t, n).Settled?
    requires rule(s, m).result == rule(t, n).result == if first then FullWin else FullLoss
    requires rule(t, m).result == rule(s, n).result == if first then FullLoss else FullWin
    ensures TwoSided(rule, s, t)
  {
    if first {
      assert Favors(rule, s, t, m) && Favors(rule, t, s, n);
    } else {
      assert Favors(rule, s, t, n) && Favors(rule, t, s, m);
    }
  }

  // ---------------------------------------------------------------- when the prefilter is safe

  lemma Swapped(rule: Rule, s: Selection, t: Selection)
    requires TwoSided(rule, s, t)
    ensures TwoSided(rule, t, s)
  {
    if m :| BothLose(rule, s, t, m) {
      assert BothLose(rule, t, s, m);
    }
  }

  // The line of a total, when the selection settles at all.
  lemma TotalLine(s: Selection) returns (value: real)
    requires IsTotal(s.family) && AlwaysSettles(s)
    ensures s.line.Some? && ParseCanonicalLine(s.line.value) == Some(value)
    ensures s.outcome == Over || s.outcome == Under
  {
    var m := MatchWith(s, ORIGIN);
    MatchWithScore(s, s, ORIGIN);
    assert Settle(s, m).Settled?;
    TotalSettles(s, ORIGIN);
    value := ParseCanonicalLine(s.line.value).value;
  }

  lemma TotalTwoSided(s: Selection, t: Selection, value: real)
    requires IsTotal(s.family) && Complementary(s, t) && AlwaysSettles(s) && AlwaysSettles(t)
    requires s.line.Some? && ParseCanonicalLine(s.line.value) == Some(value) && value >= 0.0
    requires s.outcome == Over || s.outcome == Under
    ensures TwoSided(Settle, s, t)
  {
    var over, under := if s.outcome == Over then s else t, if s.outcome == Over then t else s;
    var m := TotalFavorsOver(over, under, value);
    var n := TotalFavorsUnder(over, under, value);
    assert TwoSided(Settle, over, under);
    Swapped(Settle, over, under);
  }

  // A line below 0, on a total.
  ghost predicate NegativeTotal(s: Selection) {
    IsTotal(s.family) && s.line.Some? && ParseCanonicalLine(s.line.value).Some? && ParseCanonicalLine(s.line.value).value < 0.0
  }

  lemma ComplementIsTwoSided(s: Selection, t: Selection)
    requires Complementary(s, t) && AlwaysSettles(s) && AlwaysSettles(t) && !NegativeTotal(s)
    ensures TwoSided(Settle, s, t)
  {
    if IsTotal(s.family) {
      var value := TotalLine(s);
      TotalTwoSided(s, t, value);
    } else if s.family == AsianHandicap {
      HandicapTwoSided(s, t);
    } else {
      PlainTwoSided(s, t, if s.family == Btts then Score(1, 1) else Score(1, 0),
                    if s.family == Btts then ORIGIN else Score(0, 1));
    }
  }

  // The split returns more than it stakes at every finished score.
  ghost predicate BeatsEverywhere(rule: Rule, a: Leg, b: Leg, x: real, y: real) {
    && x >= 0.0 && y >= 0.0
    && forall m :: RealMatch(m) && rule(a.selection, m).Settled? && rule(b.selection, m).Settled?
         ==> !ReturnsAtMostTheStake(rule, a, b, x, y, m)
  }

  lemma StakeWins(x: real, odds: real, r: SettlementResult, other: real)
    requires x > 0.0 && odds > 1.0 && r in {FullWin, HalfWin}
    ensures x * Multiplier(r, odds) + 0.0 * other > x
  {
    var gain := Multiplier(r, odds) - 1.0;
    assert x * Multiplier(r, odds) == x + x * gain;
    assert x * gain > 0.0;
  }

  lemma OverAlwaysWins(s: Selection, m: MatchState, value: real)
    requires IsTotal(s.family) && s.outcome == Over && RealMatch(m) && Settle(s, m).Settled? && InScope(s)
    requires s.line.Some? && ParseCanonicalLine(s.line.value) == Some(value) && value < 0.0
    ensures Settle(s, m).result in {FullWin, HalfWin}
  {
    var score := RealScore(s, m);
    TotalSettles(s, score);
    OverBelowZero(Counted(s, score), s.line.value, value);
  }

  ghost predicate AlwaysWins(rule: Rule, s: Selection) {
    forall m :: RealMatch(m) && rule(s, m).Settled? ==> rule(s, m).result in {FullWin, HalfWin}
  }

  lemma WinnerBeats(rule: Rule, winner: Leg, other: Leg, total: real)
    requires AlwaysWins(rule, winner.selection) && winner.odds > 1.0 && total > 0.0
    ensures BeatsEverywhere(rule, winner, other, total, 0.0)
    ensures BeatsEverywhere(rule, other, winner, 0.0, total)
  {
    forall m | RealMatch(m) && rule(winner.selection, m).Settled? && rule(other.selection, m).Settled?
      ensures !ReturnsAtMostTheStake(rule, winner, other, total, 0.0, m)
      ensures !ReturnsAtMostTheStake(rule, other, winner, 0.0, total, m)
    {
      StakeWins(total, winner.odds, rule(winner.selection, m).result, Multiplier(rule(other.selection, m).result, other.odds));
    }
  }

  // On a negative total everything on OVER beats the stake at every score.
  lemma NegativeIsBeaten(over: Leg, under: Leg, total: real)
    requires NegativeTotal(over.selection)
    requires over.selection.outcome == Over && InScope(over.selection) && over.odds > 1.0 && total > 0.0
    ensures BeatsEverywhere(Settle, over, under, total, 0.0)
    ensures BeatsEverywhere(Settle, under, over, 0.0, total)
  {
    var s := over.selection;
    forall m | RealMatch(m) && Settle(s, m).Settled? ensures Settle(s, m).result in {FullWin, HalfWin} {
      OverAlwaysWins(s, m, ParseCanonicalLine(s.line.value).value);
    }
    WinnerBeats(Settle, over, under, total);
  }

  lemma NothingBeatsTwoSided(rule: Rule, a: Leg, b: Leg, x: real, y: real)
    requires TwoSided(rule, a.selection, b.selection)
    requires a.odds > 0.0 && b.odds > 0.0 && 1.0 / a.odds + 1.0 / b.odds >= 1.0
    ensures !BeatsEverywhere(rule, a, b, x, y)
  {
    if x >= 0.0 && y >= 0.0 {
      NoSplitBeats(rule, a, b, x, y);
    }
  }

  // The prefilter throws away a two-way complement whose reciprocals reach 1. That loses a real
  // arbitrage, some split of the stake that profits at every finished score, if and only if the
  // legs are a total on a negative line.
  lemma PrefilterLosesOnlyNegativeTotals(a: Leg, b: Leg, total: real)
    requires Complementary(a.selection, b.selection) && AlwaysSettles(a.selection) && AlwaysSettles(b.selection)
    requires a.odds > 1.0 && b.odds > 1.0 && ReciprocalsReachOne(a.odds, b.odds) && total > 0.0
    ensures (exists x, y :: x + y == total && BeatsEverywhere(Settle, a, b, x, y)) <==> NegativeTotal(a.selection)
  {
    if NegativeTotal(a.selection) {
      var _ := TotalLine(a.selection);
      var _ := TotalLine(b.selection);
      if a.selection.outcome == Over {
        NegativeIsBeaten(a, b, total);
        assert total + 0.0 == total;
      } else {
        NegativeIsBeaten(b, a, total);
        assert 0.0 + total == total;
      }
    } else {
      ComplementIsTwoSided(a.selection, b.selection);
      forall x, y | x + y == total ensures !BeatsEverywhere(Settle, a, b, x, y) {
        NothingBeatsTwoSided(Settle, a, b, x, y);
      }
    }
  }
}
