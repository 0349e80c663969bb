// Settling a selection against a final match state, and paying the result out.

module Settlement {
  import opened Lines

  // ---------------------------------------------------------------- value sets

  datatype ComponentResult = Won | Lost | Pushed | Voided

  datatype SettlementResult = FullWin | FullLoss | Push | HalfWin | HalfLoss | Void

  datatype Family =
    | MatchResult | DoubleChance | MatchTotal | AsianTotal | AsianHandicap | TeamTotal
    | TeamAsianTotal | Corners | Cards | Btts | ExactScore

  datatype MarketType = OneXTwo | DoubleChanceMarket | Standard | Asian | Handicap | BttsMarket | ExactScoreMarket

  datatype Period = FullMatch | FirstHalf | SecondHalf | ExtraTime | Penalties

  datatype Participant = HomeTeam | AwayTeam

  datatype EventStatus = Scheduled | Live | Finished | Postponed | Cancelled | Abandoned | UnknownStatus

  // An outcome is one of the named constants or any other text, such as a scoreline.
  datatype Outcome =
    | Home | Draw | Away | Over | Under | BttsYes | BttsNo | HomeOrDraw | AwayOrDraw | HomeOrAway
    | Text(text: string)

  datatype Score = Score(home: int, away: int)

  datatype MatchState = MatchState(
    status: EventStatus,
    fullTime: Option<Score>,
    firstHalf: Option<Score>,
    secondHalf: Option<Score>,
    extraTime: Option<Score>,
    penalties: Option<Score>,
    corners: Option<Score>,
    cards: Option<Score>)

  datatype Selection = Selection(
    family: Family,
    marketType: MarketType,
    period: Period,
    participant: Option<Participant>,
    line: Option<string>,
    outcome: Outcome)

  datatype Reason =
    | NotFinished | MissingScore | MissingParticipant | MissingLine | InvalidLine | UnsupportedOutcome | NoStateModel

  datatype Settled =
    | Settled(result: SettlementResult, components: seq<ComponentResult>)
    | Unknown(reason: Reason)
    | Threw

  // ---------------------------------------------------------------- combining components

  // None is the exception the source throws: no component, VOID mixed with others, or WIN with LOSS.
  function FromComponents(cs: seq<ComponentResult>): Option<SettlementResult> {
    if |cs| == 0 then None
    else if Voided in cs then
      if forall i :: 0 <= i < |cs| ==> cs[i] == Voided then Some(Void) else None
    else if Won in cs && Lost in cs then None
    else if Won in cs then
      Some(if forall i :: 0 <= i < |cs| ==> cs[i] == Won then FullWin else HalfWin)
    else if Lost in cs then
      Some(if forall i :: 0 <= i < |cs| ==> cs[i] == Lost then FullLoss else HalfLoss)
    else Some(Push)
  }

  function Combined(cs: seq<ComponentResult>): Settled {
    match FromComponents(cs)
    case None => Threw
    case Some(result) => Settled(result, cs)
  }

  // ---------------------------------------------------------------- settlement rules

  // The numbers that the component lines of a line parse to.
  function LineValues(line: string): (r: Option<seq<real>>)
    ensures r.Some? <==> ParseCanonicalLine(line).Some?
    ensures r.Some? ==> r.value == Components(ParseCanonicalLine(line).value)
  {
    match SplitAsianLine(line)
    case None => None
    case Some(lines) =>
      SplitParsesBack(line);
      Some(seq(|lines|, i requires 0 <= i < |lines| => ParseCanonicalLine(lines[i]).value))
  }

  // Positive wins, negative loses, zero pushes.
  function BySign(edge: real): ComponentResult {
    if edge > 0.0 then Won else if edge < 0.0 then Lost else Pushed
  }

  function TotalEdge(actual: int, value: real, outcome: Outcome): real {
    if outcome == Over then actual as real - value else value - actual as real
  }

  function HandicapEdge(margin: int, value: real, side: Participant): real {
    if side == HomeTeam then margin as real + value else value - margin as real
  }

  function TotalComponents(actual: int, values: seq<real>, outcome: Outcome): seq<ComponentResult> {
    seq(|values|, i requires 0 <= i < |values| => BySign(TotalEdge(actual, values[i], outcome)))
  }

  function HandicapComponents(margin: int, values: seq<real>, side: Participant): seq<ComponentResult> {
    seq(|values|, i requires 0 <= i < |values| => BySign(HandicapEdge(margin, values[i], side)))
  }

  function SettleTotal(actual: int, line: Option<string>, outcome: Outcome): Settled {
    match line
    case None => Unknown(MissingLine)
    case Some(text) =>
      match LineValues(text)
      case None => Unknown(InvalidLine)
      case Some(values) =>
        if outcome != Over && outcome != Under then Unknown(UnsupportedOutcome)
        else Combined(TotalComponents(actual, values, outcome))
  }

  function SettleHandicap(margin: int, line: Option<string>, side: Participant): Settled {
    match line
    case None => Unknown(MissingLine)
    case Some(text) =>
      match LineValues(text)
      case None => Unknown(InvalidLine)
      case Some(values) => Combined(HandicapComponents(margin, values, side))
  }

  function WinIf(won: bool): Settled {
    Combined([if won then Won else Lost])
  }

  function SettleResultMarket(margin: int, outcome: Outcome): Settled {
    match outcome
    case Home => WinIf(margin > 0)
    case Away => WinIf(margin < 0)
    case Draw => WinIf(margin == 0)
    case HomeOrDraw => WinIf(margin >= 0)
    case AwayOrDraw => WinIf(margin <= 0)
    case HomeOrAway => WinIf(margin != 0)
    case _ => Unknown(UnsupportedOutcome)
  }

  function SettleBtts(score: Score, outcome: Outcome): Settled {
    var both := score.home >= 1 && score.away >= 1;
    match outcome
    case BttsYes => WinIf(both)
    case BttsNo => WinIf(!both)
    case _ => Unknown(UnsupportedOutcome)
  }

  // digits "-" digits
  function ParseScoreline(outcome: Outcome): Option<(nat, nat)> {
    if !outcome.Text? then None
    else
      var s := outcome.text;
      var dash := IndexOf(s, '-');
      if dash < |s| && AllDigits(s[..dash]) && AllDigits(s[dash + 1..]) then
        Some((Digits(s[..dash]), Digits(s[dash + 1..])))
      else None
  }

  function SettleExactScore(score: Score, outcome: Outcome): Settled {
    match ParseScoreline(outcome)
    case None => Unknown(UnsupportedOutcome)
    case Some((home, away)) => WinIf(home == score.home && away == score.away)
  }

  function PeriodScore(m: MatchState, period: Period): Option<Score> {
    match period
    case FullMatch => m.fullTime
    case FirstHalf => m.firstHalf
    case SecondHalf =>
      if m.secondHalf.Some? then m.secondHalf
      else if m.firstHalf.Some? && m.fullTime.Some? then
        Some(Score(m.fullTime.value.home - m.firstHalf.value.home, m.fullTime.value.away - m.firstHalf.value.away))
      else None
    case ExtraTime => m.extraTime
    case Penalties => m.penalties
  }

  function Total(score: Score): int {
    score.home + score.away
  }

  function Margin(score: Score): int {
    score.home - score.away
  }

  function TeamCount(score: Score, side: Participant): int {
    if side == HomeTeam then score.home else score.away
  }

  // The participant, when there is one, overrides the outcome.
  function HandicapSide(s: Selection): Participant {
    match s.participant
    case Some(side) => side
    case None => if s.outcome == Home then HomeTeam else AwayTeam
  }

  // A goal selection against the score of its own period.
  function SettleGoals(s: Selection, score: Score): Settled {
    match s.family
    case MatchTotal => SettleTotal(Total(score), s.line, s.outcome)
    case AsianTotal => SettleTotal(Total(score), s.line, s.outcome)
    case TeamTotal => SettleTeamTotal(s, score)
    case TeamAsianTotal => SettleTeamTotal(s, score)
    case AsianHandicap =>
      if s.outcome != Home && s.outcome != Away then Unknown(UnsupportedOutcome)
      else SettleHandicap(Margin(score), s.line, HandicapSide(s))
    case MatchResult => SettleResultMarket(Margin(score), s.outcome)
    case DoubleChance => SettleResultMarket(Margin(score), s.outcome)
    case Btts => SettleBtts(score, s.outcome)
    case _ => SettleExactScore(score, s.outcome)
  }

  function SettleTeamTotal(s: Selection, score: Score): Settled {
    match s.participant
    case None => Unknown(MissingParticipant)
    case Some(side) => SettleTotal(TeamCount(score, side), s.line, s.outcome)
  }

  predicate IsCount(s: Selection) {
    s.family == Corners || s.family == Cards
  }

  // The score that a selection is settled on.
  function ScoreFor(s: Selection, m: MatchState): Option<Score> {
    match s.family
    case Corners => m.corners
    case Cards => m.cards
    case _ => PeriodScore(m, s.period)
  }

  function SettleScore(s: Selection, score: Score): Settled {
    if IsCount(s) then SettleTotal(Total(score), s.line, s.outcome) else SettleGoals(s, score)
  }

  predicate VoidStatus(status: EventStatus) {
    status == Cancelled || status == Abandoned || status == Postponed
  }

  function Settle(s: Selection, m: MatchState): Settled {
    if VoidStatus(m.status) then Combined([Voided])
    else if m.status != Finished then Unknown(NotFinished)
    else
      match ScoreFor(s, m)
      case None => Unknown(MissingScore)
      case Some(score) => SettleScore(s, score)
  }

  // ---------------------------------------------------------------- no exception, no mixture

  lemma OneComponent(c: ComponentResult)
    ensures FromComponents([c]).Some?
  {
    assert [c][0] == c;
  }

  // Two components half a line apart: the edges of an integer on them never differ in sign.
  lemma AdjacentEdges(cs: seq<ComponentResult>, a: real, b: real, n: int)
    requires cs == [BySign(a), BySign(b)]
    requires a == n as real || b == n as real
    requires a - b == 0.5 || b - a == 0.5
    ensures FromComponents(cs).Some?
  {
    assert cs[0] == BySign(a) && cs[1] == BySign(b);
    assert Won in cs && Lost in cs ==> false;
  }

  lemma TotalNeverThrows(actual: int, value: real, outcome: Outcome)
    ensures FromComponents(TotalComponents(actual, Components(value), outcome)).Some?
  {
    var values, cs := Components(value), TotalComponents(actual, Components(value), outcome);
    var n := ComponentsShape(value);
    if |values| == 2 {
      var k := if outcome == Over then actual - n else n - actual;
      AdjacentEdges(cs, TotalEdge(actual, values[0], outcome), TotalEdge(actual, values[1], outcome), k);
    } else {
      OneComponent(cs[0]);
      assert cs == [cs[0]];
    }
  }

  lemma HandicapNeverThrows(margin: int, value: real, side: Participant)
    ensures FromComponents(HandicapComponents(margin, Components(value), side)).Some?
  {
    var values, cs := Components(value), HandicapComponents(margin, Components(value), side);
    var n := ComponentsShape(value);
    if |values| == 2 {
      var k := if side == HomeTeam then margin + n else n - margin;
      AdjacentEdges(cs, HandicapEdge(margin, values[0], side), HandicapEdge(margin, values[1], side), k);
    } else {
      OneComponent(cs[0]);
      assert cs == [cs[0]];
    }
  }

  // Either a reason, or one or two components that combine to the result.
  ghost predicate WellSettled(settled: Settled) {
    match settled
    case Threw => false
    case Unknown(_) => true
    case Settled(result, cs) => 1 <= |cs| <= 2 && FromComponents(cs) == Some(result)
  }

  lemma TotalWellSettled(actual: int, line: Option<string>, outcome: Outcome)
    ensures WellSettled(SettleTotal(actual, line, outcome))
  {
    if line.Some? && ParseCanonicalLine(line.value).Some? {
      TotalNeverThrows(actual, ParseCanonicalLine(line.value).value, outcome);
    }
  }

  lemma HandicapWellSettled(margin: int, line: Option<string>, side: Participant)
    ensures WellSettled(SettleHandicap(margin, line, side))
  {
    if line.Some? && ParseCanonicalLine(line.value).Some? {
      HandicapNeverThrows(margin, ParseCanonicalLine(line.value).value, side);
    }
  }

  lemma WinIfSettles(won: bool)
    ensures WinIf(won) == Settled(if won then FullWin else FullLoss, [if won then Won else Lost])
    ensures WellSettled(WinIf(won))
  {
    var c := if won then Won else Lost;
    assert [c][0] == c;
  }

  lemma ScoreWellSettled(s: Selection, score: Score)
    ensures WellSettled(SettleScore(s, score))
  {
    var settled := SettleScore(s, score);
    WinIfSettles(true);
    WinIfSettles(false);
    if IsCount(s) || s.family == MatchTotal || s.family == AsianTotal {
      TotalWellSettled(Total(score), s.line, s.outcome);
    } else if s.family == TeamTotal || s.family == TeamAsianTotal {
      if s.participant.Some? {
        TotalWellSettled(TeamCount(score, s.participant.value), s.line, s.outcome);
      }
    } else if s.family == AsianHandicap {
      HandicapWellSettled(Margin(score), s.line, HandicapSide(s));
    }
  }

  // No selection of any line, settled on any integer counts, ever mixes winning with losing
  // components: settlement says why it cannot settle, or returns components and their result.
  lemma SettleNeverThrows(s: Selection, m: MatchState)
    ensures WellSettled(Settle(s, m))
  {
    OneComponent(Voided);
    if ScoreFor(s, m).Some? {
      ScoreWellSettled(s, ScoreFor(s, m).value);
    }
  }

  // ---------------------------------------------------------------- the Asian rule

  // The result of an edge in quarter steps, without any component: at least half a unit clear
  // settles in full, a quarter of a unit settles half the stake.
  function AsianResult(edge: real): SettlementResult {
    if edge >= 0.5 then FullWin
    else if edge > 0.0 then HalfWin
    else if edge == 0.0 then Push
    else if edge > -0.5 then HalfLoss
    else FullLoss
  }

  lemma QuarterStepComponents(value: real, quarters: int)
    requires 4.0 * value == quarters as real
    ensures SplitAround(Components(value), value, quarters % 2 != 0)
  {
    var cents := 25 * quarters;
    var quarter := QuarterCents(quarters, cents);
    CentsComponents(cents, value, quarter);
  }

  lemma CentsRest(cents: int, k: int, rest: int)
    requires cents == 100 * k + rest && 0 <= rest < 100
    ensures cents % 100 == rest
  {
  }

  lemma QuarterCents(quarters: int, cents: int) returns (quarter: bool)
    requires cents == 25 * quarters
    ensures quarter == (cents % 100 == 25 || cents % 100 == 75) == (quarters % 2 != 0)
  {
    var k, r := quarters / 4, quarters % 4;
    CentsRest(cents, k, 25 * r);
    quarter := QuarterOdd(quarters, k, r);
  }

  lemma QuarterOdd(quarters: int, k: int, r: int) returns (odd: bool)
    requires quarters == 4 * k + r && 0 <= r < 4
    ensures odd == (quarters % 2 != 0) == (25 * r == 25 || 25 * r == 75)
  {
    odd := r == 1 || r == 3;
    if r < 2 {
      ParityOf(quarters, 2 * k, r);
    } else {
      ParityOf(quarters, 2 * k + 1, r - 2);
    }
  }

  lemma ParityOf(n: int, half: int, rest: int)
    requires n == 2 * half + rest && 0 <= rest < 2
    ensures n % 2 == rest
  {
  }

  lemma NegatedCents(cents: int)
    ensures (-cents) % 100 == if cents % 100 == 0 then 0 else 100 - cents % 100
  {
    var q, r := cents / 100, cents % 100;
    assert -cents == 100 * -q - r;
    assert r != 0 ==> -cents == 100 * (-q - 1) + (100 - r);
  }

  lemma CombineSplitEdge(cs: seq<ComponentResult>, edge: real, odd: int)
    requires odd % 2 != 0 && 4.0 * edge == odd as real
    requires cs == [BySign(edge - 0.25), BySign(edge + 0.25)] || cs == [BySign(edge + 0.25), BySign(edge - 0.25)]
    ensures Combined(cs) == Settled(AsianResult(edge), cs)
  {
    assert {cs[0], cs[1]} == {BySign(edge - 0.25), BySign(edge + 0.25)};
    assert odd >= 3 || odd == 1 || odd == -1 || odd <= -3;
    if odd >= 3 {
      assert cs == [Won, Won];
    } else if odd <= -3 {
      assert cs == [Lost, Lost];
    } else if odd == 1 {
      assert cs == [Pushed, Won] || cs == [Won, Pushed];
      assert Won in cs && Pushed in cs;
    } else {
      assert cs == [Lost, Pushed] || cs == [Pushed, Lost];
      assert Lost in cs && Pushed in cs;
    }
  }

  lemma CombineWholeEdge(cs: seq<ComponentResult>, edge: real, halves: int)
    requires 2.0 * edge == halves as real && cs == [BySign(edge)]
    ensures Combined(cs) == Settled(AsianResult(edge), cs)
  {
    assert cs[0] == BySign(edge);
    assert halves >= 1 || halves == 0 || halves <= -1;
  }

  lemma StepParity(n: int, quarters: int)
    ensures (4 * n + quarters) % 2 == (quarters - 4 * n) % 2 == (4 * n - quarters) % 2 == quarters % 2
  {
    var half, odd := quarters / 2, quarters % 2;
    assert 4 * n + quarters == 2 * (2 * n + half) + odd;
    assert quarters - 4 * n == 2 * (half - 2 * n) + odd;
    assert 4 * n - quarters == 2 * (2 * n - half - odd) + odd;
  }

  lemma EdgesInSteps(cs: seq<ComponentResult>, edge: real, steps: int)
    requires 4.0 * edge == steps as real
    requires steps % 2 != 0 ==> cs == [BySign(edge - 0.25), BySign(edge + 0.25)] || cs == [BySign(edge + 0.25), BySign(edge - 0.25)]
    requires steps % 2 == 0 ==> cs == [BySign(edge)]
    ensures Combined(cs) == Settled(AsianResult(edge), cs)
  {
    if steps % 2 != 0 {
      CombineSplitEdge(cs, edge, steps);
    } else {
      CombineWholeEdge(cs, edge, steps / 2);
    }
  }

  lemma TotalInSteps(actual: int, values: seq<real>, value: real, quarters: int, outcome: Outcome)
    requires 4.0 * value == quarters as real && SplitAround(values, value, quarters % 2 != 0)
    ensures var cs := TotalComponents(actual, values, outcome);
            Combined(cs) == Settled(AsianResult(TotalEdge(actual, value, outcome)), cs)
  {
    var steps := if outcome == Over then 4 * actual - quarters else quarters - 4 * actual;
    StepParity(actual, quarters);
    EdgesInSteps(TotalComponents(actual, values, outcome), TotalEdge(actual, value, outcome), steps);
  }

  lemma HandicapInSteps(margin: int, values: seq<real>, value: real, quarters: int, side: Participant)
    requires 4.0 * value == quarters as real && SplitAround(values, value, quarters % 2 != 0)
    ensures var cs := HandicapComponents(margin, values, side);
            Combined(cs) == Settled(AsianResult(HandicapEdge(margin, value, side)), cs)
  {
    var steps := if side == HomeTeam then 4 * margin + quarters else quarters - 4 * margin;
    StepParity(margin, quarters);
    EdgesInSteps(HandicapComponents(margin, values, side), HandicapEdge(margin, value, side), steps);
  }

  // On a line in quarter steps a total settles by how far the count is clear of the line.
  lemma TotalOnQuarterStep(actual: int, line: string, value: real, quarters: int, outcome: Outcome)
    requires ParseCanonicalLine(line) == Some(value) && 4.0 * value == quarters as real
    requires outcome == Over || outcome == Under
    ensures SettleTotal(actual, Some(line), outcome).Settled?
    ensures SettleTotal(actual, Some(line), outcome).result == AsianResult(TotalEdge(actual, value, outcome))
  {
    QuarterStepComponents(value, quarters);
    TotalInSteps(actual, Components(value), value, quarters, outcome);
  }

  lemma HandicapOnQuarterStep(margin: int, line: string, value: real, quarters: int, side: Participant)
    requires ParseCanonicalLine(line) == Some(value) && 4.0 * value == quarters as real
    ensures SettleHandicap(margin, Some(line), side).Settled?
    ensures SettleHandicap(margin, Some(line), side).result == AsianResult(HandicapEdge(margin, value, side))
  {
    QuarterStepComponents(value, quarters);
    HandicapInSteps(margin, Components(value), value, quarters, side);
  }

  // ---------------------------------------------------------------- mirrors

  function MirrorComponent(c: ComponentResult): ComponentResult {
    match c
    case Won => Lost
    case Lost => Won
    case _ => c
  }

  function Mirror(r: SettlementResult): SettlementResult {
    match r
    case FullWin => FullLoss
    case FullLoss => FullWin
    case HalfWin => HalfLoss
    case HalfLoss => HalfWin
    case _ => r
  }

  ghost predicate Mirrored(cs: seq<ComponentResult>, ds: seq<ComponentResult>) {
    |cs| == |ds| && forall i :: 0 <= i < |cs| ==> ds[i] == MirrorComponent(cs[i])
  }

  lemma MirroredContents(cs: seq<ComponentResult>, ds: seq<ComponentResult>)
    requires Mirrored(cs, ds)
    ensures Voided in cs <==> Voided in ds
    ensures Won in cs <==> Lost in ds
    ensures Lost in cs <==> Won in ds
    ensures (forall i :: 0 <= i < |cs| ==> cs[i] == Won) <==> (forall i :: 0 <= i < |ds| ==> ds[i] == Lost)
    ensures (forall i :: 0 <= i < |cs| ==> cs[i] == Lost) <==> (forall i :: 0 <= i < |ds| ==> ds[i] == Won)
    ensures (forall i :: 0 <= i < |cs| ==> cs[i] == Voided) <==> (forall i :: 0 <= i < |ds| ==> ds[i] == Voided)
  {
    assert forall i :: 0 <= i < |ds| ==> cs[i] == MirrorComponent(ds[i]);
  }

  // Mirrored components combine to the mirrored result, and throw together.
  lemma MirrorCombines(cs: seq<ComponentResult>, ds: seq<ComponentResult>)
    requires Mirrored(cs, ds)
    ensures FromComponents(cs).None? <==> FromComponents(ds).None?
    ensures FromComponents(cs).Some? ==> FromComponents(ds).value == Mirror(FromComponents(cs).value)
  {
    MirroredContents(cs, ds);
  }

  // OVER and UNDER of one line settle to mirrored results, whatever the line and the count.
  lemma OverUnderMirror(actual: int, line: string)
    requires ParseCanonicalLine(line).Some?
    ensures var (over, under) := (SettleTotal(actual, Some(line), Over), SettleTotal(actual, Some(line), Under));
            over.Settled? && under.Settled? && under.result == Mirror(over.result)
  {
    var values := Components(ParseCanonicalLine(line).value);
    var cs, ds := TotalComponents(actual, values, Over), TotalComponents(actual, values, Under);
    TotalNeverThrows(actual, ParseCanonicalLine(line).value, Over);
    MirrorCombines(cs, ds);
  }

  lemma OppositeSides(margin: int, values: seq<real>, opposite: seq<real>, value: real, quarter: bool)
    requires SplitAround(values, value, quarter) && SplitAround(opposite, -value, quarter)
    requires FromComponents(HandicapComponents(margin, values, HomeTeam)).Some?
    ensures var home := FromComponents(HandicapComponents(margin, values, HomeTeam));
            var away := FromComponents(HandicapComponents(margin, opposite, AwayTeam));
            away.Some? && away.value == Mirror(home.value)
  {
    var cs := HandicapComponents(margin, values, HomeTeam);
    var ds := HandicapComponents(margin, opposite, AwayTeam);
    if |cs| == 1 {
      MirrorCombines(cs, ds);
    } else {
      MirrorCombines(cs, [ds[1], ds[0]]);
      SwapCombines(ds[0], ds[1]);
      assert ds == [ds[0], ds[1]];
    }
  }

  lemma HandicapCombines(margin: int, line: string, value: real, values: seq<real>, side: Participant)
    requires ParseCanonicalLine(line) == Some(value) && values == Components(value)
    ensures SettleHandicap(margin, Some(line), side) == Combined(HandicapComponents(margin, values, side))
    ensures FromComponents(HandicapComponents(margin, values, side)).Some?
  {
    HandicapNeverThrows(margin, value, side);
  }

  // The two sides of one handicap, at opposite lines of two decimals, settle to mirrored results.
  lemma HandicapMirror(margin: int, line: string, opposite: string, value: real, against: real, cents: int)
    requires 100.0 * value == cents as real && against == -value
    requires ParseCanonicalLine(line) == Some(value) && ParseCanonicalLine(opposite) == Some(against)
    ensures var home := SettleHandicap(margin, Some(line), HomeTeam);
            var away := SettleHandicap(margin, Some(opposite), AwayTeam);
            home.Settled? && away.Settled? && away.result == Mirror(home.result)
  {
    var quarter, values, others := OppositeComponents(cents, value, against);
    HandicapCombines(margin, line, value, values, HomeTeam);
    HandicapCombines(margin, opposite, against, others, AwayTeam);
    OppositeSides(margin, values, others, value, quarter);
  }

  lemma TwoComponents(a: ComponentResult, b: ComponentResult)
    ensures FromComponents([a, b]) ==
      if a == b then FromComponents([a])
      else if a == Voided || b == Voided || (a == Won && b == Lost) || (a == Lost && b == Won) then None
      else if a == Won || b == Won then Some(HalfWin)
      else Some(HalfLoss)
  {
    var cs := [a, b];
    assert cs[0] == a && cs[1] == b && [a][0] == a;
  }

  lemma SwapCombines(a: ComponentResult, b: ComponentResult)
    ensures FromComponents([a, b]) == FromComponents([b, a])
  {
    TwoComponents(a, b);
    TwoComponents(b, a);
  }

  lemma OppositeComponents(cents: int, value: real, against: real) returns (quarter: bool, values: seq<real>, others: seq<real>)
    requires 100.0 * value == cents as real && against == -value
    ensures values == Components(value) && others == Components(against)
    ensures SplitAround(values, value, quarter) && SplitAround(others, against, quarter)
  {
    quarter, values, others := cents % 100 == 25 || cents % 100 == 75, Components(value), Components(against);
    NegatedCents(cents);
    CentsComponents(cents, value, quarter);
    CentsComponents(-cents, against, quarter);
  }

  // ---------------------------------------------------------------- payouts

  // The return on one unit of stake.
  function Multiplier(result: SettlementResult, odds: real): real {
    match result
    case FullWin => odds
    case FullLoss => 0.0
    case HalfWin => (odds + 1.0) / 2.0
    case HalfLoss => 0.5
    case Push => 1.0
    case Void => 1.0
  }

  function Payout(stake: real, odds: real, result: SettlementResult): real {
    stake * Multiplier(result, odds)
  }

  function ComponentReturn(c: ComponentResult, stake: real, odds: real): real {
    match c
    case Won => stake * odds
    case Pushed => stake
    case Voided => stake
    case Lost => 0.0
  }

  function ResultToComponent(r: SettlementResult): ComponentResult {
    match r
    case FullWin => Won
    case HalfWin => Won
    case FullLoss => Lost
    case HalfLoss => Lost
    case Push => Pushed
    case Void => Voided
  }

  // One equal share of the stake a component; a state without components pays as a single one.
  function ComponentPayouts(result: SettlementResult, components: Option<seq<ComponentResult>>, stake: real, odds: real)
    : seq<real>
    requires components.Some? ==> |components.value| > 0
  {
    var cs := if components.Some? then components.value else [ResultToComponent(result)];
    var share := stake / |cs| as real;
    seq(|cs|, i requires 0 <= i < |cs| => ComponentReturn(cs[i], share, odds))
  }

  function SumOf(xs: seq<real>): real {
    if |xs| == 0 then 0.0 else SumOf(xs[..|xs| - 1]) + xs[|xs| - 1]
  }

  lemma SumOfOne(x: real)
    ensures SumOf([x]) == x
  {
    assert [x][..0] == [];
  }

  lemma SumOfTwo(x: real, y: real)
    ensures SumOf([x, y]) == x + y
  {
    assert [x, y][..1] == [x];
    SumOfOne(x);
  }

  lemma HalfShares(half: real, stake: real, odds: real, gain: real)
    requires stake == half + half && gain == (odds + 1.0) / 2.0
    ensures half * odds + half * odds == stake * odds
    ensures half * odds + half == stake * gain
  {
    assert odds == gain + gain - 1.0;
    assert half * odds == half * gain + half * gain - half;
  }

  lemma OneShare(c: ComponentResult, stake: real, odds: real)
    ensures FromComponents([c]).Some?
    ensures SumOf(ComponentPayouts(FromComponents([c]).value, Some([c]), stake, odds))
         == Payout(stake, odds, FromComponents([c]).value)
  {
    OneComponent(c);
    var r := FromComponents([c]).value;
    assert [c][0] == c;
    assert ComponentPayouts(r, Some([c]), stake, odds) == [ComponentReturn(c, stake, odds)];
    SumOfOne(ComponentReturn(c, stake, odds));
  }

  lemma TwoShares(a: ComponentResult, b: ComponentResult, stake: real, odds: real)
    requires FromComponents([a, b]).Some?
    ensures SumOf(ComponentPayouts(FromComponents([a, b]).value, Some([a, b]), stake, odds))
         == Payout(stake, odds, FromComponents([a, b]).value)
  {
    var r := FromComponents([a, b]).value;
    assert [a, b][0] == a && [a, b][1] == b;
    var half := stake / 2.0;
    var x, y := ComponentReturn(a, half, odds), ComponentReturn(b, half, odds);
    assert ComponentPayouts(r, Some([a, b]), stake, odds) == [x, y];
    SumOfTwo(x, y);
    HalfShares(half, stake, odds, (odds + 1.0) / 2.0);
    TwoComponents(a, b);
    assert [a][0] == a;
  }

  // What settlement breaks into components pays out, component by component, exactly what the
  // combined result pays.
  lemma ComponentsPayTheResult(s: Selection, m: MatchState, stake: real, odds: real)
    requires Settle(s, m).Settled?
    ensures |Settle(s, m).components| > 0
    ensures SumOf(ComponentPayouts(Settle(s, m).result, Some(Settle(s, m).components), stake, odds))
         == Payout(stake, odds, Settle(s, m).result)
  {
    SettleNeverThrows(s, m);
    var cs := Settle(s, m).components;
    if |cs| == 1 {
      assert cs == [cs[0]];
      OneShare(cs[0], stake, odds);
    } else {
      assert cs == [cs[0], cs[1]];
      TwoShares(cs[0], cs[1], stake, odds);
    }
  }

  // Without components the breakdown is exact if and only if the stake is zero, the result is
  // not a half result, or it is a half win at odds of one.
  lemma PayoutWithoutComponents(result: SettlementResult, stake: real, odds: real)
    ensures SumOf(ComponentPayouts(result, None, stake, odds)) == Payout(stake, odds, result)
       <==> stake == 0.0 || (result != HalfWin && result != HalfLoss) || (result == HalfWin && odds == 1.0)
  {
    var c := ResultToComponent(result);
    assert ComponentPayouts(result, None, stake, odds) == [ComponentReturn(c, stake, odds)];
    SumOfOne(ComponentReturn(c, stake, odds));
    HalfOfTheGain(stake, odds, (odds + 1.0) / 2.0);
    ZeroProduct(stake, 0.5);
  }

  lemma HalfOfTheGain(stake: real, odds: real, half: real)
    requires half == (odds + 1.0) / 2.0
    ensures stake * odds == stake * half <==> stake == 0.0 || odds == 1.0
  {
    assert stake * odds - stake * half == stake * (odds - half);
    ZeroProduct(stake, odds - half);
  }

  lemma ZeroProduct(x: real, y: real)
    ensures x * y == 0.0 <==> x == 0.0 || y == 0.0
  {
    if x != 0.0 && y != 0.0 {
      assert x * y / y == x;
    }
  }
}
