// How likely two provider events are the same match, and what may be done about it.

module Matching {
  import opened Lines

  datatype Policy = Policy(startTimeToleranceMs: int, confirmThreshold: real, uncertaintyFloor: real, allowSwap: bool)

  const DEFAULT_POLICY := Policy(7200000, 0.8, 0.5, false)

  datatype Signals = Signals(sourceId: bool, teams: bool, reverseTeams: bool, startTime: bool, competition: bool)

  datatype Assessment = Assessment(score: real, signals: Signals)

  // A start time that does not parse to a number is None.
  datatype Ref = Ref(provider: string, sourceEventId: string, homeTeam: string, awayTeam: string,
                     competition: Option<string>, startTime: Option<int>)

  datatype Kind = Confirmed | Unsure | NoMatch

  // Names as the dictionaries resolve and fold them.
  type Fold = string -> string

  predicate TeamsEqual(a: Ref, b: Ref, team: Fold) {
    team(a.homeTeam) == team(b.homeTeam) && team(a.awayTeam) == team(b.awayTeam)
  }

  predicate TeamsReversed(a: Ref, b: Ref, team: Fold, policy: Policy) {
    policy.allowSwap && team(a.homeTeam) == team(b.awayTeam) && team(a.awayTeam) == team(b.homeTeam)
  }

  predicate StartsWithin(a: Ref, b: Ref, tolerance: int) {
    && a.startTime.Some? && b.startTime.Some?
    && a.startTime.value - b.startTime.value <= tolerance && b.startTime.value - a.startTime.value <= tolerance
  }

  predicate BothNamed(a: Ref, b: Ref) {
    a.competition.Some? && b.competition.Some?
  }

  predicate CompetitionsEqual(a: Ref, b: Ref, competition: Fold) {
    BothNamed(a, b) && competition(a.competition.value) == competition(b.competition.value)
  }

  method ComputeMatchConfidence(a: Ref, b: Ref, team: Fold, competition: Fold, policy: Policy) returns (r: Assessment)
    ensures r == Confidence(a, b, team, competition, policy)
  {
    if a.provider == b.provider && a.sourceEventId == b.sourceEventId {
      return Assessment(1.0, Signals(true, true, false, true, true));
    }
    var score, signals := 0.0, Signals(false, false, false, false, false);
    var reversed := TeamsReversed(a, b, team, policy);
    if TeamsEqual(a, b, team) || reversed {
      score := score + 0.5;
      signals := if reversed then signals.(reverseTeams := true) else signals.(teams := true);
    }
    if StartsWithin(a, b, policy.startTimeToleranceMs) {
      score := score + 0.3;
      signals := signals.(startTime := true);
    }
    if BothNamed(a, b) {
      if CompetitionsEqual(a, b, competition) {
        score := score + 0.2;
        signals := signals.(competition := true);
      } else {
        score := score - 0.2;
      }
    }
    ScoreStays(TeamsEqual(a, b, team) || reversed, StartsWithin(a, b, policy.startTimeToleranceMs),
               CompetitionsEqual(a, b, competition), BothNamed(a, b) && !CompetitionsEqual(a, b, competition));
    r := Assessment(Round3(score), signals);
  }

  function Weigh(signal: bool, weight: real): real {
    if signal then weight else 0.0
  }

  function Sum(teams: bool, start: bool, same: bool, differ: bool): real {
    Weigh(teams, 0.5) + Weigh(start, 0.3) + Weigh(same, 0.2) - Weigh(differ, 0.2)
  }

  // To three decimals.
  function Round3(x: real): real {
    Round(x * 1000.0) as real / 1000.0
  }

  lemma RoundWhole(x: real, n: int)
    requires x == n as real
    ensures Round(x) == n
  {
  }

  lemma RoundedBack(x: real, thousandths: int)
    requires x * 1000.0 == thousandths as real
    ensures Round3(x) == x
  {
    RoundWhole(x * 1000.0, thousandths);
  }

  // The weights are whole thousandths, so rounding leaves every sum of them as it is.
  lemma ScoreStays(teams: bool, start: bool, same: bool, differ: bool)
    ensures Round3(Sum(teams, start, same, differ)) == Sum(teams, start, same, differ)
  {
    var whole := (if teams then 500 else 0) + (if start then 300 else 0) + (if same then 200 else 0) - if differ then 200 else 0;
    RoundedBack(Sum(teams, start, same, differ), whole);
  }

  function Confidence(a: Ref, b: Ref, team: Fold, competition: Fold, policy: Policy): Assessment {
    if a.provider == b.provider && a.sourceEventId == b.sourceEventId then
      Assessment(1.0, Signals(true, true, false, true, true))
    else
      var reversed := TeamsReversed(a, b, team, policy);
      var teams := TeamsEqual(a, b, team) || reversed;
      var start := StartsWithin(a, b, policy.startTimeToleranceMs);
      var same := CompetitionsEqual(a, b, competition);
      ScoreStays(teams, start, same, BothNamed(a, b) && !same);
      Assessment(Round3(Sum(teams, start, same, BothNamed(a, b) && !same)),
                 Signals(false, teams && !reversed, reversed, start, same))
  }

  // The same source event is certain. Otherwise the teams, in either order where that is allowed, weigh five tenths, start
  // times within the tolerance three, and competitions that are both named two, for or against.
  lemma ConfidenceMeans(a: Ref, b: Ref, team: Fold, competition: Fold, policy: Policy)
    ensures var r := Confidence(a, b, team, competition, policy);
            if a.provider == b.provider && a.sourceEventId == b.sourceEventId then
              r.score == 1.0 && r.signals == Signals(true, true, false, true, true)
            else
              var straight := team(a.homeTeam) == team(b.homeTeam) && team(a.awayTeam) == team(b.awayTeam);
              var swapped := policy.allowSwap && team(a.homeTeam) == team(b.awayTeam) && team(a.awayTeam) == team(b.homeTeam);
              var near := && a.startTime.Some? && b.startTime.Some?
                          && -policy.startTimeToleranceMs <= a.startTime.value - b.startTime.value <= policy.startTimeToleranceMs;
              var named := a.competition.Some? && b.competition.Some?;
              var alike := named && competition(a.competition.value) == competition(b.competition.value);
              && r.signals == Signals(false, straight && !swapped, swapped, near, alike)
              && 10.0 * r.score == (if straight || swapped then 5.0 else 0.0) + (if near then 3.0 else 0.0)
                                   + (if alike then 2.0 else if named then -2.0 else 0.0)
  {
    var teams := TeamsEqual(a, b, team) || TeamsReversed(a, b, team, policy);
    var same := CompetitionsEqual(a, b, competition);
    ScoreStays(teams, StartsWithin(a, b, policy.startTimeToleranceMs), same, BothNamed(a, b) && !same);
  }

  function Classify(a: Assessment, policy: Policy): Kind {
    if a.score >= policy.confirmThreshold then Confirmed
    else if a.signals.teams || a.signals.reverseTeams then Unsure
    else NoMatch
  }

  // Above a threshold of one half only events whose teams agree are confirmed, unless they are one
  // provider's same event; at the default threshold the start times agree too.
  lemma ConfirmedMeans(a: Ref, b: Ref, team: Fold, competition: Fold, policy: Policy)
    requires Classify(Confidence(a, b, team, competition, policy), policy) == Confirmed
    requires !(a.provider == b.provider && a.sourceEventId == b.sourceEventId)
    ensures policy.confirmThreshold > 0.5 ==> TeamsEqual(a, b, team) || TeamsReversed(a, b, team, policy)
    ensures policy.confirmThreshold > 0.7 ==> StartsWithin(a, b, policy.startTimeToleranceMs)
    ensures policy.confirmThreshold > 0.6 && BothNamed(a, b) ==> CompetitionsEqual(a, b, competition)
  {
  }

  // Which side is asked about which does not matter.
  lemma ConfidenceIsSymmetric(a: Ref, b: Ref, team: Fold, competition: Fold, policy: Policy)
    ensures Confidence(a, b, team, competition, policy) == Confidence(b, a, team, competition, policy)
  {
    assert TeamsReversed(a, b, team, policy) == TeamsReversed(b, a, team, policy);
  }
}
