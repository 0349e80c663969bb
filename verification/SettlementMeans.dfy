// What every market means at a final match state, in terms of the counts themselves.

module SettlementMeans {
  import opened Lines
  import opened Settlement
  import opened ScoreSpace

  // ---------------------------------------------------------------- counts

  // The counts of a period; those of a second half that is not given are what the first half leaves of the full time.
  ghost predicate ScoreIs(m: MatchState, period: Period, h: int, a: int) {
    match period
    case FullMatch => m.fullTime == Some(Score(h, a))
    case FirstHalf => m.firstHalf == Some(Score(h, a))
    case SecondHalf =>
      || m.secondHalf == Some(Score(h, a))
      || (&& m.secondHalf.None? && m.firstHalf.Some? && m.fullTime.Some?
          && m.firstHalf.value.home + h == m.fullTime.value.home && m.firstHalf.value.away + a == m.fullTime.value.away)
    case ExtraTime => m.extraTime == Some(Score(h, a))
    case Penalties => m.penalties == Some(Score(h, a))
  }

  // A finished match has one score in each of the three periods of normal time.
  lemma RealScores(m: MatchState, period: Period) returns (h: nat, a: nat)
    requires RealMatch(m) && period in {FullMatch, FirstHalf, SecondHalf}
    ensures ScoreIs(m, period, h, a)
    ensures forall h', a' :: ScoreIs(m, period, h', a') ==> h' == h && a' == a
  {
    if period == FullMatch {
      h, a := m.fullTime.value.home, m.fullTime.value.away;
    } else if period == FirstHalf {
      h, a := m.firstHalf.value.home, m.firstHalf.value.away;
    } else {
      h, a := m.fullTime.value.home - m.firstHalf.value.home, m.fullTime.value.away - m.firstHalf.value.away;
    }
  }

  lemma PeriodScoreIs(m: MatchState, period: Period, h: int, a: int)
    ensures ScoreIs(m, period, h, a) <==> PeriodScore(m, period) == Some(Score(h, a))
  {
  }

  lemma SettledOn(s: Selection, m: MatchState, score: Score)
    requires m.status == Finished && ScoreFor(s, m) == Some(score)
    ensures Settle(s, m) == SettleScore(s, score)
  {
  }

  lemma SettledOnScore(s: Selection, m: MatchState, h: int, a: int)
    requires m.status == Finished && s.family !in {Corners, Cards} && ScoreIs(m, s.period, h, a)
    ensures Settle(s, m) == SettleScore(s, Score(h, a))
  {
    PeriodScoreIs(m, s.period, h, a);
    SettledOn(s, m, Score(h, a));
  }

  // ---------------------------------------------------------------- the status of the event

  ghost predicate HasScore(s: Selection, m: MatchState) {
    match s.family
    case Corners => m.corners.Some?
    case Cards => m.cards.Some?
    case _ => exists h, a :: ScoreIs(m, s.period, h, a)
  }

  // Called-off events void every selection, unfinished ones leave it open, and so does a score that is not there.
  lemma StatusDecides(s: Selection, m: MatchState)
    ensures m.status in {Cancelled, Abandoned, Postponed} ==> Settle(s, m) == Settled(Void, [Voided])
    ensures m.status in {Scheduled, Live, UnknownStatus} ==> Settle(s, m) == Unknown(NotFinished)
    ensures m.status == Finished && !HasScore(s, m) ==> Settle(s, m) == Unknown(MissingScore)
    ensures m.status == Finished && HasScore(s, m) ==> Settle(s, m) !in {Unknown(NotFinished), Unknown(MissingScore)}
  {
    assert [Voided][0] == Voided;
    ScoreThere(s, m);
    if m.status == Finished && HasScore(s, m) {
      ScoreWellSettled(s, ScoreFor(s, m).value);
      NoStatusReason(s, ScoreFor(s, m).value);
    }
  }

  lemma ScoreThere(s: Selection, m: MatchState)
    ensures HasScore(s, m) <==> ScoreFor(s, m).Some?
  {
    if !IsCount(s) && ScoreFor(s, m).Some? {
      var score := ScoreFor(s, m).value;
      assert ScoreIs(m, s.period, score.home, score.away);
    }
  }

  lemma NoStatusReason(s: Selection, score: Score)
    ensures SettleScore(s, score) !in {Unknown(NotFinished), Unknown(MissingScore)}
  {
    if IsCount(s) {
      TotalReason(Total(score), s.line, s.outcome);
    } else if s.family in {MatchTotal, AsianTotal} {
      TotalReason(Total(score), s.line, s.outcome);
    } else if s.family in {TeamTotal, TeamAsianTotal} {
      if s.participant.Some? {
        TotalReason(TeamCount(score, s.participant.value), s.line, s.outcome);
      }
    } else if s.family == AsianHandicap {
      HandicapReason(Margin(score), s.line, HandicapSide(s));
    } else {
      WinIfSettles(true);
      WinIfSettles(false);
    }
  }

  lemma TotalReason(n: int, line: Option<string>, outcome: Outcome)
    ensures SettleTotal(n, line, outcome) !in {Unknown(NotFinished), Unknown(MissingScore)}
  {
  }

  lemma HandicapReason(margin: int, line: Option<string>, side: Participant)
    ensures SettleHandicap(margin, line, side) !in {Unknown(NotFinished), Unknown(MissingScore)}
  {
  }

  // ---------------------------------------------------------------- results

  ghost predicate Wins(s: Selection, outcome: Outcome, m: MatchState) {
    Settle(s.(outcome := outcome), m) == Settled(FullWin, [Won])
  }

  ghost predicate Loses(s: Selection, outcome: Outcome, m: MatchState) {
    Settle(s.(outcome := outcome), m) == Settled(FullLoss, [Lost])
  }

  ghost predicate OneOf(a: bool, b: bool, c: bool) {
    (a || b || c) && !(a && b) && !(a && c) && !(b && c)
  }

  ghost const RESULTS: set<Outcome> := {Home, Draw, Away, HomeOrDraw, AwayOrDraw, HomeOrAway}

  // Each result and what it asks of the counts.
  ghost function ResultAt(h: int, a: int, outcome: Outcome): Settled {
    match outcome
    case Home => Decided(h > a)
    case Draw => Decided(h == a)
    case Away => Decided(a > h)
    case HomeOrDraw => Decided(h > a || h == a)
    case AwayOrDraw => Decided(a > h || h == a)
    case HomeOrAway => Decided(h > a || a > h)
    case _ => Unknown(UnsupportedOutcome)
  }

  ghost function Decided(won: bool): Settled {
    if won then Settled(FullWin, [Won]) else Settled(FullLoss, [Lost])
  }

  lemma ResultSettled(s: Selection, m: MatchState, h: int, a: int, margin: int)
    requires m.status == Finished && s.family in {MatchResult, DoubleChance} && ScoreIs(m, s.period, h, a) && margin == h - a
    ensures Settle(s, m) == ResultAt(h, a, s.outcome)
  {
    SettledOnScore(s, m, h, a);
    ResultGoals(s, Score(h, a), margin);
    ResultByMargin(h, a, margin, s.outcome);
  }

  lemma ResultGoals(s: Selection, score: Score, margin: int)
    requires s.family in {MatchResult, DoubleChance} && margin == Margin(score)
    ensures SettleScore(s, score) == SettleResultMarket(margin, s.outcome)
  {
  }

  lemma ResultByMargin(h: int, a: int, margin: int, outcome: Outcome)
    requires margin == h - a
    ensures SettleResultMarket(margin, outcome) == ResultAt(h, a, outcome)
  {
    WinIfSettles(true);
    WinIfSettles(false);
  }

  lemma ResultWins(s: Selection, outcome: Outcome, m: MatchState, h: int, a: int, won: bool)
    requires m.status == Finished && s.family in {MatchResult, DoubleChance} && ScoreIs(m, s.period, h, a)
    requires ResultAt(h, a, outcome) == Decided(won)
    ensures Wins(s, outcome, m) <==> won
    ensures Loses(s, outcome, m) <==> !won
  {
    ResultSettled(s.(outcome := outcome), m, h, a, h - a);
  }

  // Home wins on the larger home count and Away on the larger away count, one of Home, Draw and Away always
  // wins, a double chance wins with either of its two results, and what does not win loses.
  lemma ResultsMean(s: Selection, m: MatchState, h: int, a: int)
    requires m.status == Finished && s.family in {MatchResult, DoubleChance} && ScoreIs(m, s.period, h, a)
    ensures Wins(s, Home, m) <==> h > a
    ensures Wins(s, Away, m) <==> a > h
    ensures OneOf(Wins(s, Home, m), Wins(s, Draw, m), Wins(s, Away, m))
    ensures Wins(s, HomeOrDraw, m) <==> Wins(s, Home, m) || Wins(s, Draw, m)
    ensures Wins(s, AwayOrDraw, m) <==> Wins(s, Away, m) || Wins(s, Draw, m)
    ensures Wins(s, HomeOrAway, m) <==> Wins(s, Home, m) || Wins(s, Away, m)
    ensures forall o :: o in RESULTS ==> (Loses(s, o, m) <==> !Wins(s, o, m))
    ensures s.outcome !in RESULTS ==> Settle(s, m) == Unknown(UnsupportedOutcome)
  {
    ResultWins(s, Home, m, h, a, h > a);
    ResultWins(s, Draw, m, h, a, h == a);
    ResultWins(s, Away, m, h, a, a > h);
    ResultWins(s, HomeOrDraw, m, h, a, h > a || h == a);
    ResultWins(s, AwayOrDraw, m, h, a, a > h || h == a);
    ResultWins(s, HomeOrAway, m, h, a, h > a || a > h);
    ResultSettled(s, m, h, a, h - a);
  }

  // BTTS: yes wins when both sides have scored, no wins when yes does not, and what does not win loses.
  lemma BttsMeans(s: Selection, m: MatchState, h: int, a: int)
    requires m.status == Finished && s.family == Btts && ScoreIs(m, s.period, h, a)
    ensures Wins(s, BttsYes, m) <==> h > 0 && a > 0
    ensures Wins(s, BttsNo, m) <==> !Wins(s, BttsYes, m)
    ensures forall o :: o in {BttsYes, BttsNo} ==> (Loses(s, o, m) <==> !Wins(s, o, m))
    ensures s.outcome !in {BttsYes, BttsNo} ==> Settle(s, m) == Unknown(UnsupportedOutcome)
  {
    WinIfSettles(true);
    WinIfSettles(false);
    SettledOnScore(s.(outcome := BttsYes), m, h, a);
    SettledOnScore(s.(outcome := BttsNo), m, h, a);
    SettledOnScore(s, m, h, a);
  }

  // ---------------------------------------------------------------- scorelines

  // The text of a scoreline of x to y, with or without leading zeros.
  ghost predicate Scoreline(text: string, x: nat, y: nat) {
    exists u, v :: AllDigits(u) && AllDigits(v) && text == u + "-" + v && Digits(u) == x && Digits(v) == y
  }

  lemma DashAt(s: string, i: nat)
    requires i < |s| && s[i] == '-' && forall k :: 0 <= k < i ==> s[k] != '-'
    ensures IndexOf(s, '-') == i
  {
  }

  lemma ScorelineParses(text: string, u: string, v: string)
    requires AllDigits(u) && AllDigits(v) && text == u + "-" + v
    ensures ParseScoreline(Text(text)) == Some((Digits(u), Digits(v)))
  {
    assert forall k :: 0 <= k < |u| ==> IsDigit(u[k]) && text[k] == u[k];
    DashAt(text, |u|);
    assert text[..|u|] == u && text[|u| + 1..] == v;
  }

  lemma ParsedIsScoreline(text: string)
    requires ParseScoreline(Text(text)).Some?
    ensures var (x, y) := ParseScoreline(Text(text)).value; Scoreline(text, x, y)
  {
    var dash := IndexOf(text, '-');
    var u, v := text[..dash], text[dash + 1..];
    assert text == u + "-" + v;
  }

  // An exact score wins on exactly the scoreline it spells, and an outcome that spells none is not supported.
  lemma ExactScoreMeans(s: Selection, m: MatchState, h: int, a: int, x: nat, y: nat)
    requires m.status == Finished && s.family == ExactScore && ScoreIs(m, s.period, h, a)
    ensures s.outcome.Text? && Scoreline(s.outcome.text, x, y) ==>
              (if h == x && a == y then Wins(s, s.outcome, m) else Loses(s, s.outcome, m))
    ensures !(s.outcome.Text? && exists i, j :: Scoreline(s.outcome.text, i, j)) ==> Settle(s, m) == Unknown(UnsupportedOutcome)
  {
    WinIfSettles(true);
    WinIfSettles(false);
    SettledOnScore(s, m, h, a);
    assert s.(outcome := s.outcome) == s;
    if s.outcome.Text? {
      if Scoreline(s.outcome.text, x, y) {
        var u, v :| AllDigits(u) && AllDigits(v) && s.outcome.text == u + "-" + v && Digits(u) == x && Digits(v) == y;
        ScorelineParses(s.outcome.text, u, v);
      } else if ParseScoreline(s.outcome).Some? {
        ParsedIsScoreline(s.outcome.text);
      }
    }
  }

  // The printed numbers spell their scoreline.
  lemma PrintedScoreline(x: nat, y: nat)
    ensures Scoreline(NatToString(x) + "-" + NatToString(y), x, y)
  {
    NatRoundTrip(x);
    NatRoundTrip(y);
  }

  // ---------------------------------------------------------------- totals

  // What a total counts.
  ghost predicate Counted(s: Selection, m: MatchState, n: int) {
    match s.family
    case MatchTotal => exists h, a :: ScoreIs(m, s.period, h, a) && n == h + a
    case AsianTotal => exists h, a :: ScoreIs(m, s.period, h, a) && n == h + a
    case TeamTotal => exists h, a :: ScoreIs(m, s.period, h, a) && OfTeam(s.participant, h, a, n)
    case TeamAsianTotal => exists h, a :: ScoreIs(m, s.period, h, a) && OfTeam(s.participant, h, a, n)
    case Corners => m.corners.Some? && n == m.corners.value.home + m.corners.value.away
    case Cards => m.cards.Some? && n == m.cards.value.home + m.cards.value.away
    case _ => false
  }

  ghost predicate OfTeam(side: Option<Participant>, h: int, a: int, n: int) {
    (side == Some(HomeTeam) && n == h) || (side == Some(AwayTeam) && n == a)
  }

  ghost predicate InCents(value: real, cents: int) {
    100.0 * value == cents as real
  }

  ghost predicate EndsInQuarter(cents: int, quarter: bool) {
    quarter <==> cents % 100 == 25 || cents % 100 == 75
  }

  // The hundredths next to a number, the higher ones of two.
  ghost predicate Nearest(cents: int, x: real) {
    cents as real - 0.5 <= 100.0 * x < cents as real + 0.5
  }

  // A line whose nearest hundredths end in a quarter splits around them; any other one stands for itself.
  ghost predicate LineIs(line: Option<string>, value: real, quarter: bool) {
    && line.Some? && ParseCanonicalLine(line.value).Some?
    && exists cents :: Nearest(cents, ParseCanonicalLine(line.value).value) && EndsInQuarter(cents, quarter)
                       && if quarter then InCents(value, cents) else value == ParseCanonicalLine(line.value).value
  }

  lemma LineSplits(x: real, cents: int, value: real, quarter: bool)
    requires Nearest(cents, x) && EndsInQuarter(cents, quarter) && if quarter then InCents(value, cents) else value == x
    ensures SplitAround(Components(x), value, quarter)
  {
    assert Round(x * 100.0) == cents;
    if x == x.Floor as real {
      assert cents == 100 * x.Floor;
    }
  }

  // Every line that parses is one or the other.
  lemma EveryLineIs(line: string) returns (value: real, quarter: bool)
    requires ParseCanonicalLine(line).Some?
    ensures LineIs(Some(line), value, quarter)
  {
    var x := ParseCanonicalLine(line).value;
    var cents := (100.0 * x + 0.5).Floor;
    quarter := cents % 100 == 25 || cents % 100 == 75;
    value := if quarter then cents as real / 100.0 else x;
    assert Nearest(cents, x) && EndsInQuarter(cents, quarter) && (quarter ==> InCents(value, cents));
  }

  // How far a bet is clear of its line settles it; within half a unit of a quarter line, half of it.
  ghost predicate Graded(settled: Settled, clear: real, quarter: bool) {
    && settled.Settled?
    && settled.result == (if quarter && -0.5 < clear < 0.5 then (if clear > 0.0 then HalfWin else HalfLoss)
                          else if clear > 0.0 then FullWin else if clear < 0.0 then FullLoss else Push)
  }

  lemma TotalGoals(s: Selection, score: Score, n: int)
    requires s.family in {MatchTotal, AsianTotal} && n == score.home + score.away
    ensures SettleScore(s, score) == SettleTotal(n, s.line, s.outcome)
  {
    assert Total(score) == n;
  }

  lemma TeamGoals(s: Selection, score: Score, n: int)
    requires s.family in {TeamTotal, TeamAsianTotal} && OfTeam(s.participant, score.home, score.away, n)
    ensures SettleScore(s, score) == SettleTotal(n, s.line, s.outcome)
  {
  }

  lemma CountTotal(s: Selection, score: Score, n: int)
    requires s.family in {Corners, Cards} && n == score.home + score.away
    ensures SettleScore(s, score) == SettleTotal(n, s.line, s.outcome)
  {
    assert Total(score) == n;
  }

  lemma CountedScore(s: Selection, m: MatchState, n: int) returns (score: Score)
    requires Counted(s, m, n)
    ensures ScoreFor(s, m) == Some(score)
    ensures if s.family in {TeamTotal, TeamAsianTotal} then OfTeam(s.participant, score.home, score.away, n)
            else n == score.home + score.away
  {
    if s.family in {MatchTotal, AsianTotal} {
      var h, a :| ScoreIs(m, s.period, h, a) && n == h + a;
      score := Score(h, a);
    } else if s.family in {TeamTotal, TeamAsianTotal} {
      var h, a :| ScoreIs(m, s.period, h, a) && OfTeam(s.participant, h, a, n);
      score := Score(h, a);
    } else {
      score := if s.family == Corners then m.corners.value else m.cards.value;
    }
  }

  lemma CountedTotal(s: Selection, m: MatchState, n: int)
    requires m.status == Finished && Counted(s, m, n)
    ensures Settle(s, m) == SettleTotal(n, s.line, s.outcome)
  {
    var score := CountedScore(s, m, n);
    SettledOn(s, m, score);
    if s.family in {MatchTotal, AsianTotal} {
      TotalGoals(s, score, n);
    } else if s.family in {TeamTotal, TeamAsianTotal} {
      TeamGoals(s, score, n);
    } else {
      CountTotal(s, score, n);
    }
  }

  lemma QuartersOf(cents: int) returns (quarters: int)
    requires cents % 100 == 25 || cents % 100 == 75
    ensures cents == 25 * quarters && quarters % 2 != 0
  {
    quarters := 4 * (cents / 100) + (if cents % 100 == 25 then 1 else 3);
    ParityOf(quarters, 2 * (cents / 100) + (if cents % 100 == 25 then 0 else 1), 1);
  }

  lemma GradedQuarter(settled: Settled, clear: real, steps: int)
    requires settled.Settled? && settled.result == AsianResult(clear) && 4.0 * clear == steps as real && steps % 2 != 0
    ensures Graded(settled, clear, true)
  {
  }

  lemma GradedWhole(edge: real)
    ensures Graded(Combined([BySign(edge)]), edge, false)
  {
    assert [BySign(edge)][0] == BySign(edge);
  }

  // OVER wins by as much as the count is above the line, and UNDER by as much as it is below.
  lemma TotalMeans(s: Selection, m: MatchState, n: int, value: real, quarter: bool)
    requires m.status == Finished && Counted(s, m, n) && LineIs(s.line, value, quarter)
    ensures s.outcome == Over ==> Graded(Settle(s, m), n as real - value, quarter)
    ensures s.outcome == Under ==> Graded(Settle(s, m), value - n as real, quarter)
    ensures s.outcome !in {Over, Under} ==> Settle(s, m) == Unknown(UnsupportedOutcome)
  {
    CountedTotal(s, m, n);
    if s.outcome in {Over, Under} {
      TotalGraded(n, s.line.value, value, quarter, s.outcome);
    }
  }

  lemma TotalGraded(n: int, line: string, value: real, quarter: bool, outcome: Outcome)
    requires LineIs(Some(line), value, quarter) && outcome in {Over, Under}
    ensures Graded(SettleTotal(n, Some(line), outcome), TotalEdge(n, value, outcome), quarter)
  {
    var x := ParseCanonicalLine(line).value;
    var cents :| Nearest(cents, x) && EndsInQuarter(cents, quarter) && if quarter then InCents(value, cents) else value == x;
    LineSplits(x, cents, value, quarter);
    TotalCombines(n, line, x, outcome);
    if quarter {
      var quarters := QuartersOf(cents);
      TotalInSteps(n, Components(x), value, quarters, outcome);
      StepParity(n, quarters);
      GradedQuarter(SettleTotal(n, Some(line), outcome), TotalEdge(n, value, outcome),
                    if outcome == Over then 4 * n - quarters else quarters - 4 * n);
    } else {
      GradedWhole(TotalEdge(n, value, outcome));
      assert TotalComponents(n, [value], outcome) == [BySign(TotalEdge(n, value, outcome))];
    }
  }

  lemma TotalCombines(n: int, line: string, x: real, outcome: Outcome)
    requires ParseCanonicalLine(line) == Some(x) && outcome in {Over, Under}
    ensures SettleTotal(n, Some(line), outcome) == Combined(TotalComponents(n, Components(x), outcome))
  {
  }

  ghost predicate IsTotal(family: Family) {
    family in {MatchTotal, AsianTotal, TeamTotal, TeamAsianTotal, Corners, Cards}
  }

  // A missing line and one that is no number are the reasons not to settle, in this order.
  ghost predicate LineDecides(line: Option<string>, settled: Settled) {
    match line
    case None => settled == Unknown(MissingLine)
    case Some(text) => if ParseCanonicalLine(text).None? then settled == Unknown(InvalidLine) else settled.Settled?
  }

  // A total that cannot be settled says what is missing first: the team, the line, or the direction.
  lemma TotalFaults(s: Selection, m: MatchState)
    requires m.status == Finished && IsTotal(s.family) && HasScore(s, m)
    ensures if s.family in {TeamTotal, TeamAsianTotal} && s.participant.None? then Settle(s, m) == Unknown(MissingParticipant)
            else if s.outcome in {Over, Under} then LineDecides(s.line, Settle(s, m))
            else Settle(s, m) in {Unknown(MissingLine), Unknown(InvalidLine), Unknown(UnsupportedOutcome)}
                 && (Settle(s, m) == Unknown(UnsupportedOutcome) <==> s.line.Some? && ParseCanonicalLine(s.line.value).Some?)
                 && (Settle(s, m) == Unknown(MissingLine) <==> s.line.None?)
  {
    ScoreThere(s, m);
    if s.family in {TeamTotal, TeamAsianTotal} && s.participant.None? {
      SettledOn(s, m, ScoreFor(s, m).value);
    } else {
      var n := CountOf(s, m);
      CountedTotal(s, m, n);
      TotalReasons(n, s.line, s.outcome);
    }
  }

  lemma CountOf(s: Selection, m: MatchState) returns (n: int)
    requires IsTotal(s.family) && ScoreFor(s, m).Some? && !(s.family in {TeamTotal, TeamAsianTotal} && s.participant.None?)
    ensures Counted(s, m, n)
  {
    var score := ScoreFor(s, m).value;
    n := if s.family in {TeamTotal, TeamAsianTotal} then TeamCount(score, s.participant.value) else Total(score);
    if s.family !in {Corners, Cards} {
      PeriodScoreIs(m, s.period, score.home, score.away);
    }
  }

  lemma TotalReasons(n: int, line: Option<string>, outcome: Outcome)
    ensures var settled := SettleTotal(n, line, outcome);
            if outcome in {Over, Under} then LineDecides(line, settled)
            else settled in {Unknown(MissingLine), Unknown(InvalidLine), Unknown(UnsupportedOutcome)}
                 && (settled == Unknown(UnsupportedOutcome) <==> line.Some? && ParseCanonicalLine(line.value).Some?)
                 && (settled == Unknown(MissingLine) <==> line.None?)
  {
    TotalWellSettled(n, line, outcome);
  }

  // ---------------------------------------------------------------- handicaps

  // The side a handicap backs: the participant when there is one, and otherwise the outcome.
  ghost predicate Backs(s: Selection, side: Participant) {
    match s.participant
    case Some(p) => p == side
    case None => (s.outcome == Home && side == HomeTeam) || (s.outcome == Away && side == AwayTeam)
  }

  lemma SettledHandicap(s: Selection, m: MatchState, h: int, a: int, margin: int)
    requires m.status == Finished && s.family == AsianHandicap && ScoreIs(m, s.period, h, a) && margin == h - a
    ensures Settle(s, m) == if s.outcome in {Home, Away} then SettleHandicap(margin, s.line, HandicapSide(s))
                            else Unknown(UnsupportedOutcome)
  {
    SettledOnScore(s, m, h, a);
    HandicapGoals(s, Score(h, a), margin);
  }

  lemma HandicapGoals(s: Selection, score: Score, margin: int)
    requires s.family == AsianHandicap && margin == Margin(score)
    ensures SettleScore(s, score) == if s.outcome in {Home, Away} then SettleHandicap(margin, s.line, HandicapSide(s))
                                     else Unknown(UnsupportedOutcome)
  {
  }

  lemma HandicapClear(s: Selection, settled: Settled, margin: int, side: Participant, clear: real, value: real, quarter: bool)
    requires s.outcome in {Home, Away} && Backs(s, side) && LineIs(s.line, value, quarter)
    requires settled == SettleHandicap(margin, s.line, HandicapSide(s)) && clear == HandicapEdge(margin, value, side)
    ensures Graded(settled, clear, quarter)
  {
    HandicapGraded(margin, s.line.value, value, quarter, side);
  }

  lemma LeadEdge(margin: int, lead: int, side: Participant, value: real) returns (clear: real)
    requires lead == if side == HomeTeam then margin else -margin
    ensures clear == lead as real + value == HandicapEdge(margin, value, side)
  {
    clear := lead as real + value;
  }

  // A handicap is settled by its side's lead with the line added.
  lemma HandicapMeans(s: Selection, m: MatchState, h: int, a: int, side: Participant, lead: int, value: real, quarter: bool)
    requires m.status == Finished && s.family == AsianHandicap && ScoreIs(m, s.period, h, a) && LineIs(s.line, value, quarter)
    requires s.outcome in {Home, Away} && Backs(s, side) && lead == if side == HomeTeam then h - a else a - h
    ensures Graded(Settle(s, m), lead as real + value, quarter)
  {
    var margin := h - a;
    SettledHandicap(s, m, h, a, margin);
    var clear := LeadEdge(margin, lead, side, value);
    HandicapClear(s, Settle(s, m), margin, side, clear, value, quarter);
  }

  lemma HandicapGraded(margin: int, line: string, value: real, quarter: bool, side: Participant)
    requires LineIs(Some(line), value, quarter)
    ensures Graded(SettleHandicap(margin, Some(line), side), HandicapEdge(margin, value, side), quarter)
  {
    var x := ParseCanonicalLine(line).value;
    var cents :| Nearest(cents, x) && EndsInQuarter(cents, quarter) && if quarter then InCents(value, cents) else value == x;
    LineSplits(x, cents, value, quarter);
    HandicapCombines(margin, line, x, Components(x), side);
    if quarter {
      var quarters := QuartersOf(cents);
      HandicapInSteps(margin, Components(x), value, quarters, side);
      StepParity(margin, quarters);
      GradedQuarter(SettleHandicap(margin, Some(line), side), HandicapEdge(margin, value, side),
                    if side == HomeTeam then 4 * margin + quarters else quarters - 4 * margin);
    } else {
      GradedWhole(HandicapEdge(margin, value, side));
      assert HandicapComponents(margin, [value], side) == [BySign(HandicapEdge(margin, value, side))];
    }
  }

  lemma HandicapFaults(s: Selection, m: MatchState, h: int, a: int)
    requires m.status == Finished && s.family == AsianHandicap && ScoreIs(m, s.period, h, a)
    ensures s.outcome !in {Home, Away} ==> Settle(s, m) == Unknown(UnsupportedOutcome)
    ensures s.outcome in {Home, Away} ==> LineDecides(s.line, Settle(s, m))
  {
    var margin := h - a;
    SettledHandicap(s, m, h, a, margin);
    HandicapReasons(margin, s.line, HandicapSide(s));
  }

  lemma HandicapReasons(margin: int, line: Option<string>, side: Participant)
    ensures LineDecides(line, SettleHandicap(margin, line, side))
  {
    HandicapWellSettled(margin, line, side);
  }
}
