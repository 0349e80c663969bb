// Which scores settle alike: settlement sees a score only through its clamped coordinates
// or its clamped margin.

module Coordinates {
  import opened Lines
  import opened Settlement

  function Max(a: int, b: int): int {
    if a < b then b else a
  }

  function Min(a: int, b: int): int {
    if a < b then a else b
  }

  // ---------------------------------------------------------------- boundaries

  function LineBound(line: Option<string>): (b: nat)
  {
    if line.None? then 0
    else
      match ParseCanonicalLine(line.value)
      case None => 0
      case Some(value) => CeilAbs(value)
  }

  function CeilAbs(value: real): (b: nat)
    ensures AbsReal(value) <= b as real
  {
    Ceil(AbsReal(value))
  }

  function ScorelineBound(s: Selection): nat {
    if s.family != ExactScore then 0
    else
      match ParseScoreline(s.outcome)
      case None => 0
      case Some((home, away)) => Max(home, away)
  }

  function ImplicitBound(s: Selection): nat {
    if s.family == Btts || s.family == MatchResult || s.family == DoubleChance then 1 else 0
  }

  function SelectionBound(s: Selection): nat {
    Max(LineBound(s.line), Max(ScorelineBound(s), ImplicitBound(s)))
  }

  // ---------------------------------------------------------------- beyond every boundary

  // Equal, or both past the bound on the same side.
  predicate AlikeBeyond(x: int, y: int, bound: int) {
    x == y || (x > bound && y > bound) || (x < -bound && y < -bound)
  }

  lemma EdgeSigns(x: int, y: int, value: real, bound: nat, outcome: Outcome, side: Participant)
    requires AlikeBeyond(x, y, bound) && AbsReal(value) <= bound as real
    ensures BySign(TotalEdge(x, value, outcome)) == BySign(TotalEdge(y, value, outcome))
    ensures BySign(HandicapEdge(x, value, side)) == BySign(HandicapEdge(y, value, side))
  {
    if x != y && x > bound {
      assert x as real > bound as real && y as real > bound as real;
    } else if x != y {
      assert x as real < -(bound as real) && y as real < -(bound as real);
    }
  }

  lemma TotalBeyond(x: int, y: int, line: Option<string>, outcome: Outcome)
    requires AlikeBeyond(x, y, LineBound(line))
    ensures SettleTotal(x, line, outcome) == SettleTotal(y, line, outcome)
  {
    if line.Some? && ParseCanonicalLine(line.value).Some? {
      var value := ParseCanonicalLine(line.value).value;
      var values := Components(value);
      var _ := ComponentsShape(value);
      forall i | 0 <= i < |values|
        ensures BySign(TotalEdge(x, values[i], outcome)) == BySign(TotalEdge(y, values[i], outcome))
      {
        EdgeSigns(x, y, values[i], LineBound(line), outcome, HomeTeam);
      }
      assert TotalComponents(x, values, outcome) == TotalComponents(y, values, outcome);
    }
  }

  lemma HandicapBeyond(x: int, y: int, line: Option<string>, side: Participant)
    requires AlikeBeyond(x, y, LineBound(line))
    ensures SettleHandicap(x, line, side) == SettleHandicap(y, line, side)
  {
    if line.Some? && ParseCanonicalLine(line.value).Some? {
      var value := ParseCanonicalLine(line.value).value;
      var values := Components(value);
      var _ := ComponentsShape(value);
      forall i | 0 <= i < |values|
        ensures BySign(HandicapEdge(x, values[i], side)) == BySign(HandicapEdge(y, values[i], side))
      {
        EdgeSigns(x, y, values[i], LineBound(line), Over, side);
      }
      assert HandicapComponents(x, values, side) == HandicapComponents(y, values, side);
    }
  }

  // ---------------------------------------------------------------- representatives

  // Families that settle on coordinates, and families that settle on the margin alone.
  predicate OnCoordinates(f: Family) {
    f == MatchTotal || f == AsianTotal || f == TeamTotal || f == TeamAsianTotal || f == Btts || f == ExactScore
  }

  predicate OnMargin(f: Family) {
    f == MatchResult || f == DoubleChance || f == AsianHandicap
  }

  predicate Natural(score: Score) {
    score.home >= 0 && score.away >= 0
  }

  predicate InSquare(score: Score, limit: int) {
    0 <= score.home <= limit && 0 <= score.away <= limit
  }

  function Clamped(score: Score, limit: nat): (r: Score)
    requires Natural(score)
    ensures InSquare(r, limit)
  {
    Score(Min(score.home, limit), Min(score.away, limit))
  }

  // The smallest score with the same margin, the margin capped at the limit.
  function MarginPoint(margin: int, limit: nat): (r: Score)
    ensures InSquare(r, limit)
  {
    if margin >= 0 then Score(Min(margin, limit), 0) else Score(0, Min(-margin, limit))
  }

  // Clamping every coordinate past the boundary leaves each coordinate market's settlement as it was.
  lemma ClampSettles(s: Selection, score: Score, limit: nat)
    requires Natural(score) && SelectionBound(s) < limit
    requires OnCoordinates(s.family) || IsCount(s)
    ensures SettleScore(s, score) == SettleScore(s, Clamped(score, limit))
  {
    var r := Clamped(score, limit);
    TotalBeyond(Total(score), Total(r), s.line, s.outcome);
    TotalBeyond(score.home, r.home, s.line, s.outcome);
    TotalBeyond(score.away, r.away, s.line, s.outcome);
  }

  // A margin market settled on a margin.
  function SettleMargin(s: Selection, margin: int): Settled {
    if s.family != AsianHandicap then SettleResultMarket(margin, s.outcome)
    else if s.outcome != Home && s.outcome != Away then Unknown(UnsupportedOutcome)
    else SettleHandicap(margin, s.line, HandicapSide(s))
  }

  lemma OnMarginOnly(s: Selection, score: Score)
    requires OnMargin(s.family)
    ensures SettleScore(s, score) == SettleMargin(s, Margin(score))
  {
  }

  lemma MarginBeyond(s: Selection, x: int, y: int)
    requires OnMargin(s.family) && AlikeBeyond(x, y, SelectionBound(s))
    ensures SettleMargin(s, x) == SettleMargin(s, y)
  {
    if s.family == AsianHandicap {
      HandicapBeyond(x, y, s.line, HandicapSide(s));
    } else {
      assert SelectionBound(s) >= 1;
    }
  }

  lemma MarginPointAlike(margin: int, limit: nat, bound: nat)
    requires bound < limit
    ensures AlikeBeyond(margin, Margin(MarginPoint(margin, limit)), bound)
  {
  }

  // Clamping the margin past the boundary leaves each margin market's settlement as it was.
  lemma MarginSettles(s: Selection, score: Score, limit: nat)
    requires SelectionBound(s) < limit && OnMargin(s.family)
    ensures SettleScore(s, score) == SettleScore(s, MarginPoint(Margin(score), limit))
  {
    var margin := Margin(score);
    var r := MarginPoint(margin, limit);
    MarginPointAlike(margin, limit, SelectionBound(s));
    MarginBeyond(s, margin, Margin(r));
    OnMarginOnly(s, score);
    OnMarginOnly(s, r);
  }

  // The representative of a score for selections that all settle on the margin, or all on coordinates.
  function Representative(score: Score, margins: bool, limit: nat): (r: Score)
    requires Natural(score)
    ensures InSquare(r, limit)
  {
    if margins then MarginPoint(Margin(score), limit) else Clamped(score, limit)
  }

  predicate InRegime(s: Selection, margins: bool) {
    if margins then OnMargin(s.family) else OnCoordinates(s.family)
  }

  lemma RepresentativeSettles(s: Selection, score: Score, margins: bool, limit: nat)
    requires Natural(score) && SelectionBound(s) < limit && InRegime(s, margins)
    ensures SettleScore(s, score) == SettleScore(s, Representative(score, margins, limit))
  {
    if margins {
      MarginSettles(s, score, limit);
    } else {
      ClampSettles(s, score, limit);
    }
  }

  // Whether a selection settles at all never depends on the score it is given.
  lemma SettlingIgnoresScore(s: Selection, a: Score, b: Score)
    ensures SettleScore(s, a).Settled? <==> SettleScore(s, b).Settled?
  {
    ScoreWellSettled(s, a);
    ScoreWellSettled(s, b);
    WinIfSettles(true);
    WinIfSettles(false);
  }
}
