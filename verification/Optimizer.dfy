// The stake optimizer: maximin fractions scaled to a total stake, and the verdict on them.

module Optimizer {
  import opened Lines
  import opened Vectors
  import opened SimplexTableau
  import opened Simplex
  import opened Maximin
  import opened MaximinTheorems
  import opened SimplexInPlace
  import opened Settlement
  import opened StateModel
  import opened Coverage

  const EPS := 0.000000001

  datatype StakePlan = StakePlan(
    stakes: seq<real>,
    totalStake: real,
    stateReturns: seq<real>,
    minReturn: real,
    guaranteedProfit: real,
    roi: real,
    isArb: bool,
    multiplierMatrix: seq<seq<real>>)

  datatype Failure = BadStake | NothingToOptimize | Misaligned | NotOptimal

  datatype PlanResult = Planned(plan: StakePlan) | Failed(why: Failure)

  // ---------------------------------------------------------------- the matrix

  predicate AlignedStates(states: seq<OutcomeState>, legs: seq<Leg>) {
    forall j :: 0 <= j < |states| ==> |states[j].vector| == |legs|
  }

  function MultiplierRow(vector: seq<SettlementResult>, legs: seq<Leg>): (row: seq<real>)
    requires |vector| == |legs|
    ensures |row| == |legs|
  {
    seq(|legs|, i requires 0 <= i < |legs| => Multiplier(vector[i], legs[i].odds))
  }

  function MultiplierMatrix(states: seq<OutcomeState>, legs: seq<Leg>): (matrix: seq<seq<real>>)
    requires AlignedStates(states, legs)
    ensures |matrix| == |states| && Rectangular(matrix, |legs|)
    ensures forall j :: 0 <= j < |states| ==> matrix[j] == MultiplierRow(states[j].vector, legs)
  {
    seq(|states|, j requires 0 <= j < |states| => MultiplierRow(states[j].vector, legs))
  }

  // ---------------------------------------------------------------- fractions

  function MaxReal(a: real, b: real): real {
    if a < b then b else a
  }

  function Positive(x: seq<real>, legs: nat): (r: seq<real>)
    requires legs <= |x|
    ensures |r| == legs && NonNegative(r)
    ensures forall i :: 0 <= i < legs && x[i] >= 0.0 ==> r[i] == x[i]
  {
    seq(legs, i requires 0 <= i < legs => MaxReal(0.0, x[i]))
  }

  lemma SolutionWidth(c: seq<real>, A: seq<seq<real>>, b: seq<real>, s: Settings)
    requires Sensible(s)
    ensures |Minimize(c, A, b, s).solution| == |c|
  {
  }

  function FractionsFrom(result: SimplexResult, legs: nat): (r: Option<seq<real>>)
    requires legs <= |result.solution|
    ensures r.Some? ==> |r.value| == legs && NonNegative(r.value)
  {
    if result.status != Optimum then None else Some(Positive(result.solution, legs))
  }

  // None is the exception for a solver that does not report an optimum.
  function Fractions(matrix: seq<seq<real>>, legs: nat, s: Settings): (r: Option<seq<real>>)
    requires Rectangular(matrix, legs) && Sensible(s)
    ensures r.Some? ==> |r.value| == legs && NonNegative(r.value)
  {
    var c, A, b := Objective(legs, |matrix|), Program(matrix, legs), Rhs(|matrix|);
    SolutionWidth(c, A, b, s);
    FractionsFrom(Minimize(c, A, b, s), legs)
  }

  // The rows of the program, filled entry by entry.
  method FillStateRow(row: seq<real>, states: nat, j: nat) returns (line: seq<real>)
    requires j < states
    ensures line == StateRow(row, states, j)
  {
    var legs := |row|;
    line := Zeros(Variables(legs, states));
    for leg := 0 to legs
      invariant |line| == Variables(legs, states)
      invariant forall k :: 0 <= k < leg ==> line[k] == -row[k]
      invariant forall k :: leg <= k < |line| ==> line[k] == 0.0
    {
      line := line[leg := -row[leg]];
    }
    line := line[legs := 1.0];
    line := line[legs + 1 := -1.0];
    line := line[legs + 2 + j := 1.0];
  }

  method FillSumRow(legs: nat, states: nat, sign: real, slack: nat) returns (line: seq<real>)
    requires slack < states + 2
    ensures line == SumRow(legs, states, sign, slack)
  {
    line := Zeros(Variables(legs, states));
    for leg := 0 to legs
      invariant |line| == Variables(legs, states)
      invariant forall k :: 0 <= k < leg ==> line[k] == sign
      invariant forall k :: leg <= k < |line| ==> line[k] == 0.0
    {
      line := line[leg := sign];
    }
    line := line[legs + 2 + slack := 1.0];
  }

  method FillProgram(matrix: seq<seq<real>>, legs: nat) returns (A: seq<seq<real>>, b: seq<real>)
    requires Rectangular(matrix, legs)
    ensures A == Program(matrix, legs) && b == Rhs(|matrix|)
  {
    A, b := [], [];
    for j := 0 to |matrix|
      invariant A == StateRows(matrix)[..j] && b == Zeros(j)
    {
      var line := FillStateRow(matrix[j], |matrix|, j);
      A, b := A + [line], b + [0.0];
    }
    var sumRow := FillSumRow(legs, |matrix|, 1.0, |matrix|);
    var negatedSumRow := FillSumRow(legs, |matrix|, -1.0, |matrix| + 1);
    A, b := A + [sumRow] + [negatedSumRow], b + [1.0] + [-1.0];
  }

  method ReadFractions(result: SimplexResult, legs: nat) returns (r: Option<seq<real>>)
    requires legs <= |result.solution|
    ensures r == FractionsFrom(result, legs)
  {
    if result.status != Optimum {
      return None;
    }
    var stakes := Zeros(legs);
    for leg := 0 to legs
      invariant |stakes| == legs && forall k :: 0 <= k < leg ==> stakes[k] == MaxReal(0.0, result.solution[k])
    {
      stakes := stakes[leg := MaxReal(0.0, result.solution[leg])];
    }
    assert stakes == Positive(result.solution, legs);
    r := Some(stakes);
  }

  method SolveMaximin(matrix: seq<seq<real>>, legs: nat, s: Settings) returns (r: Option<seq<real>>)
    requires Rectangular(matrix, legs) && Sensible(s)
    ensures r == Fractions(matrix, legs, s)
  {
    var A, b := FillProgram(matrix, legs);
    var objective := Objective(legs, |matrix|);
    var result := SimplexMinimize(objective, A, b, s);
    SolutionWidth(objective, A, b, s);
    r := ReadFractions(result, legs);
  }

  // ---------------------------------------------------------------- the plan

  function Scaled(x: seq<real>, f: real): (r: seq<real>)
    ensures |r| == |x| && forall i :: 0 <= i < |x| ==> r[i] == x[i] * f
  {
    seq(|x|, i requires 0 <= i < |x| => x[i] * f)
  }

  function Normalized(fractions: seq<real>): (r: seq<real>)
    ensures |r| == |fractions|
  {
    var sum := Sum(fractions, |fractions|);
    if sum > EPS then Divided(fractions, sum) else fractions
  }

  function Returns(matrix: seq<seq<real>>, stakes: seq<real>): (r: seq<real>)
    requires Rectangular(matrix, |stakes|)
    ensures |r| == |matrix| && forall j :: 0 <= j < |matrix| ==> r[j] == Dot(matrix[j], stakes, |stakes|)
  {
    seq(|matrix|, j requires 0 <= j < |matrix| => Dot(matrix[j], stakes, |stakes|))
  }

  function Least(xs: seq<real>, k: nat): real
    requires k < |xs|
  {
    if k == 0 then xs[0] else MinReal(Least(xs, k - 1), xs[k])
  }

  function PlanFor(matrix: seq<seq<real>>, fractions: seq<real>, totalStake: real): StakePlan
    requires Rectangular(matrix, |fractions|) && |matrix| > 0 && totalStake > 0.0
  {
    var stakes := Scaled(Normalized(fractions), totalStake);
    var stateReturns := Returns(matrix, stakes);
    var minReturn := Least(stateReturns, |matrix| - 1);
    var profit := minReturn - totalStake;
    StakePlan(stakes, totalStake, stateReturns, minReturn, profit, profit / totalStake, minReturn > totalStake + EPS, matrix)
  }

  function Optimize(states: seq<OutcomeState>, legs: seq<Leg>, totalStake: real, s: Settings): PlanResult
    requires Sensible(s)
  {
    if totalStake <= 0.0 then Failed(BadStake)
    else if |legs| == 0 || |states| == 0 then Failed(NothingToOptimize)
    else if !AlignedStates(states, legs) then Failed(Misaligned)
    else
      var matrix := MultiplierMatrix(states, legs);
      match Fractions(matrix, |legs|, s)
      case None => Failed(NotOptimal)
      case Some(fractions) => Planned(PlanFor(matrix, fractions, totalStake))
  }

  method OptimizeStakes(states: seq<OutcomeState>, legs: seq<Leg>, totalStake: real, s: Settings) returns (r: PlanResult)
    requires Sensible(s)
    ensures r == Optimize(states, legs, totalStake, s)
  {
    if totalStake <= 0.0 {
      return Failed(BadStake);
    }
    if |legs| == 0 || |states| == 0 {
      return Failed(NothingToOptimize);
    }
    if !AlignedStates(states, legs) {
      return Failed(Misaligned);
    }
    var matrix := MultiplierMatrix(states, legs);
    var fractions := SolveMaximin(matrix, |legs|, s);
    if fractions.None? {
      return Failed(NotOptimal);
    }
    r := Planned(PlanFor(matrix, fractions.value, totalStake));
  }

  // ---------------------------------------------------------------- what a plan is worth

  lemma {:induction false} SumScaled(x: seq<real>, f: real, n: nat)
    requires n <= |x|
    ensures Sum(Scaled(x, f), n) == Sum(x, n) * f
  {
    if n > 0 {
      SumScaled(x, f, n - 1);
    }
  }

  lemma {:induction false} SumDivided(x: seq<real>, p: real, n: nat)
    requires n <= |x| && p != 0.0
    ensures Sum(Divided(x, p), n) == Sum(x, n) / p
  {
    if n > 0 {
      SumDivided(x, p, n - 1);
    }
  }

  lemma {:induction false} DotScaled(row: seq<real>, x: seq<real>, f: real, n: nat)
    requires n <= |row| && n <= |x|
    ensures Dot(row, Scaled(x, f), n) == Dot(row, x, n) * f
  {
    if n > 0 {
      DotScaled(row, x, f, n - 1);
      assert row[n - 1] * (x[n - 1] * f) == row[n - 1] * x[n - 1] * f;
    }
  }

  lemma {:induction false} LeastIsLeast(xs: seq<real>, k: nat) returns (i: nat)
    requires k < |xs|
    ensures i <= k && Least(xs, k) == xs[i]
    ensures forall l :: 0 <= l <= k ==> Least(xs, k) <= xs[l]
  {
    i := k;
    if k > 0 {
      var l := LeastIsLeast(xs, k - 1);
      if Least(xs, k - 1) < xs[k] {
        i := l;
      }
    }
  }

  lemma QuotientSign(a: real, p: real)
    requires p > 0.0
    ensures a >= 0.0 ==> a / p >= 0.0
    ensures a == p ==> a / p == 1.0
  {
  }

  lemma DividedSum(x: seq<real>, sum: real)
    requires NonNegative(x) && sum == Sum(x, |x|) > 0.0
    ensures NonNegative(Divided(x, sum)) && Sum(Divided(x, sum), |x|) == 1.0
  {
    SumDivided(x, sum, |x|);
    QuotientSign(sum, sum);
    forall i | 0 <= i < |x| ensures Divided(x, sum)[i] >= 0.0 {
      QuotientSign(x[i], sum);
    }
  }

  lemma NormalizedSum(fractions: seq<real>)
    requires NonNegative(fractions)
    ensures NonNegative(Normalized(fractions))
    ensures Sum(fractions, |fractions|) > EPS ==> Sum(Normalized(fractions), |fractions|) == 1.0
    ensures Sum(Normalized(fractions), |fractions|) <= 1.0
  {
    var sum := Sum(fractions, |fractions|);
    if sum > EPS {
      DividedSum(fractions, sum);
    }
  }

  lemma ScaledParts(parts: seq<real>, totalStake: real, n: nat)
    requires NonNegative(parts) && n == |parts| && Sum(parts, n) <= 1.0 && totalStake > 0.0
    ensures NonNegative(Scaled(parts, totalStake))
    ensures Sum(Scaled(parts, totalStake), n) <= totalStake
    ensures Sum(parts, n) == 1.0 ==> Sum(Scaled(parts, totalStake), n) == totalStake
  {
    SumScaled(parts, totalStake, n);
    ProductNotNegative(1.0 - Sum(parts, n), totalStake);
    forall i | 0 <= i < n ensures Scaled(parts, totalStake)[i] >= 0.0 {
      ProductNotNegative(parts[i], totalStake);
    }
  }

  // The stakes are non-negative and never add up to more than the total, to exactly the total
  // unless the solver's fractions all but vanish.
  lemma StakesAddUp(matrix: seq<seq<real>>, fractions: seq<real>, totalStake: real, plan: StakePlan)
    requires Rectangular(matrix, |fractions|) && |matrix| > 0 && totalStake > 0.0 && NonNegative(fractions)
    requires plan == PlanFor(matrix, fractions, totalStake)
    ensures |plan.stakes| == |fractions| && NonNegative(plan.stakes)
    ensures Sum(plan.stakes, |fractions|) <= totalStake
    ensures Sum(fractions, |fractions|) > EPS ==> Sum(plan.stakes, |fractions|) == totalStake
  {
    NormalizedSum(fractions);
    ScaledParts(Normalized(fractions), totalStake, |fractions|);
  }

  // The reported minimum is the least state return of the reported stakes.
  lemma MinimumIsLeast(matrix: seq<seq<real>>, fractions: seq<real>, totalStake: real, plan: StakePlan) returns (j: nat)
    requires Rectangular(matrix, |fractions|) && |matrix| > 0 && totalStake > 0.0
    requires plan == PlanFor(matrix, fractions, totalStake)
    ensures j < |matrix| && plan.minReturn == Dot(matrix[j], plan.stakes, |fractions|)
    ensures forall i :: 0 <= i < |matrix| ==> plan.minReturn <= Dot(matrix[i], plan.stakes, |fractions|)
  {
    j := LeastIsLeast(Returns(matrix, plan.stakes), |matrix| - 1);
  }

  // The profit is what the minimum leaves over the total, the roi is it per unit staked, and the plan is an
  // arbitrage exactly when the profit exceeds the tolerance.
  lemma ProfitIsReported(matrix: seq<seq<real>>, fractions: seq<real>, totalStake: real, plan: StakePlan)
    requires Rectangular(matrix, |fractions|) && |matrix| > 0 && totalStake > 0.0
    requires plan == PlanFor(matrix, fractions, totalStake)
    ensures plan.totalStake == totalStake && plan.guaranteedProfit == plan.minReturn - totalStake
    ensures plan.roi * totalStake == plan.guaranteedProfit
    ensures plan.isArb <==> plan.guaranteedProfit > 0.000000001
    ensures plan.multiplierMatrix == matrix && plan.stateReturns == Returns(matrix, plan.stakes)
  {
    TimesQuotient(plan.guaranteedProfit, totalStake);
  }

  // ---------------------------------------------------------------- no better plan

  lemma MultipliersNonNegative(states: seq<OutcomeState>, legs: seq<Leg>)
    requires AlignedStates(states, legs) && forall i :: 0 <= i < |legs| ==> legs[i].odds >= 0.0
    ensures NonNegativeRows(MultiplierMatrix(states, legs))
  {
    var matrix := MultiplierMatrix(states, legs);
    forall j, i | 0 <= j < |matrix| && 0 <= i < |legs| ensures matrix[j][i] >= 0.0 {
      assert matrix[j][i] == Multiplier(states[j].vector[i], legs[i].odds);
    }
  }

  lemma SplitOfOne(w: seq<real>, totalStake: real, n: nat)
    requires n == |w| && NonNegative(w) && totalStake > 0.0 && Sum(w, n) == totalStake
    ensures IsSplit(Divided(w, totalStake), n)
  {
    DividedSum(w, totalStake);
  }

  lemma UnitFractions(x: seq<real>, n: nat)
    requires n == |x| && Sum(x, n) == 1.0
    ensures Normalized(x) == x
  {
    assert Divided(x, 1.0) == x;
  }

  lemma ScaledBack(row: seq<real>, w: seq<real>, totalStake: real, n: nat)
    requires n == |row| == |w| && totalStake > 0.0
    ensures Dot(row, Divided(w, totalStake), n) * totalStake == Dot(row, w, n)
  {
    var parts := Divided(w, totalStake);
    DotScaled(row, parts, totalStake, n);
    forall i | 0 <= i < n ensures Scaled(parts, totalStake)[i] == w[i] {
      TimesQuotient(w[i], totalStake);
    }
    assert Scaled(parts, totalStake) == w;
  }

  lemma TimesQuotient(a: real, p: real)
    requires p != 0.0
    ensures a / p * p == a
  {
  }

  lemma KeepOrder(a: real, b: real, f: real)
    requires a <= b && f > 0.0
    ensures a * f <= b * f
  {
    ProductNotNegative(b - a, f);
  }

  lemma FractionsAre(matrix: seq<seq<real>>, legs: nat, s: Settings, r: SimplexResult)
    requires Rectangular(matrix, legs) && Sensible(s)
    requires r == Minimize(Objective(legs, |matrix|), Program(matrix, legs), Rhs(|matrix|), s) && r.status == Optimum
    requires legs <= |r.solution| && NonNegative(r.solution[..legs])
    ensures Fractions(matrix, legs, s) == Some(r.solution[..legs])
  {
    assert forall i :: 0 <= i < legs ==> r.solution[i] == r.solution[..legs][i];
    assert Positive(r.solution, legs) == r.solution[..legs];
  }

  lemma PlannedStakes(matrix: seq<seq<real>>, x: seq<real>, totalStake: real, plan: StakePlan, legs: nat)
    requires legs == |x| && Rectangular(matrix, legs) && |matrix| > 0 && totalStake > 0.0 && IsSplit(x, legs)
    requires plan == PlanFor(matrix, x, totalStake)
    ensures plan.stakes == Scaled(x, totalStake)
  {
    UnitFractions(x, legs);
  }

  ghost predicate Multiples(big: seq<real>, small: seq<real>, f: real) {
    |big| == |small| && forall j :: 0 <= j < |small| ==> big[j] == small[j] * f
  }

  lemma ReturnsScaled(matrix: seq<seq<real>>, x: seq<real>, f: real)
    requires Rectangular(matrix, |x|)
    ensures Multiples(Returns(matrix, Scaled(x, f)), Returns(matrix, x), f)
  {
    forall j | 0 <= j < |matrix| ensures Returns(matrix, Scaled(x, f))[j] == Returns(matrix, x)[j] * f {
      DotScaled(matrix[j], x, f, |x|);
    }
  }

  lemma ReturnsScaledBack(matrix: seq<seq<real>>, w: seq<real>, f: real)
    requires Rectangular(matrix, |w|) && f > 0.0
    ensures Multiples(Returns(matrix, w), Returns(matrix, Divided(w, f)), f)
  {
    forall j | 0 <= j < |matrix| ensures Returns(matrix, w)[j] == Returns(matrix, Divided(w, f))[j] * f {
      ScaledBack(matrix[j], w, f, |w|);
    }
  }

  lemma {:induction false} LeastReturn(matrix: seq<seq<real>>, x: seq<real>, k: nat)
    requires Rectangular(matrix, |x|) && k < |matrix|
    ensures Least(Returns(matrix, x), k) == MinReturn(matrix, x, |x|, k)
  {
    if k > 0 {
      LeastReturn(matrix, x, k - 1);
    }
  }

  // Where the least of r is at least the least of p, every multiple of r reaches some multiple of p.
  lemma BetterMultiples(r: seq<real>, p: seq<real>, big: seq<real>, other: seq<real>, f: real, i: nat) returns (j: nat)
    requires |r| == |p| > i && Multiples(big, r, f) && Multiples(other, p, f) && f > 0.0
    requires Least(p, |p| - 1) <= Least(r, |r| - 1)
    ensures j < |p| && other[j] <= big[i]
  {
    var k := LeastIsLeast(r, |r| - 1);
    j := LeastIsLeast(p, |p| - 1);
    KeepOrder(p[j], r[i], f);
  }

  // Of two splits of 1, the better one, scaled, returns in every state at least what the other
  // one, scaled, returns in some state.
  lemma BetterSplit(matrix: seq<seq<real>>, x: seq<real>, w: seq<real>, f: real, legs: nat, i: nat) returns (j: nat)
    requires legs == |x| == |w| && Rectangular(matrix, legs) && i < |matrix| && f > 0.0
    requires MinReturn(matrix, Divided(w, f), legs, |matrix| - 1) <= MinReturn(matrix, x, legs, |matrix| - 1)
    ensures j < |matrix| && Returns(matrix, w)[j] <= Returns(matrix, Scaled(x, f))[i]
  {
    var part := Divided(w, f);
    LeastReturn(matrix, x, |matrix| - 1);
    LeastReturn(matrix, part, |matrix| - 1);
    ReturnsScaled(matrix, x, f);
    ReturnsScaledBack(matrix, w, f);
    j := BetterMultiples(Returns(matrix, x), Returns(matrix, part), Returns(matrix, Scaled(x, f)), Returns(matrix, w), f, i);
  }

  // A plan for the better of two splits of 1 returns at least what the other, scaled, can.
  lemma PlanBeats(matrix: seq<seq<real>>, x: seq<real>, w: seq<real>, totalStake: real, plan: StakePlan, legs: nat)
    returns (j: nat)
    requires legs == |x| == |w| && Rectangular(matrix, legs) && |matrix| > 0 && totalStake > 0.0 && IsSplit(x, legs)
    requires plan == PlanFor(matrix, x, totalStake)
    requires MinReturn(matrix, Divided(w, totalStake), legs, |matrix| - 1) <= MinReturn(matrix, x, legs, |matrix| - 1)
    ensures j < |matrix| && Dot(matrix[j], w, legs) <= plan.minReturn
  {
    PlannedStakes(matrix, x, totalStake, plan, legs);
    var i := MinimumIsLeast(matrix, x, totalStake, plan);
    j := BetterSplit(matrix, x, w, totalStake, legs, i);
  }

  // With an exact solver the plan stakes the whole total, and every other non-negative split of
  // the same total has a state that returns no more than the plan's minimum.
  lemma NoBetterPlan(states: seq<OutcomeState>, legs: seq<Leg>, totalStake: real, s: Settings, n: nat, m: nat,
      w: seq<real>) returns (plan: StakePlan, j: nat)
    requires |legs| > 0 && |states| > 0 && AlignedStates(states, legs) && totalStake > 0.0
    requires forall i :: 0 <= i < |legs| ==> legs[i].odds >= 0.0
    requires n == Variables(|legs|, |states|) && m == |states| + 2 && Exact(s, n, m)
    requires |w| == |legs| && NonNegative(w) && Sum(w, |w|) == totalStake
    ensures Optimize(states, legs, totalStake, s) == Planned(plan) && |plan.stakes| == |legs|
    ensures NonNegative(plan.stakes) && Sum(plan.stakes, |legs|) == totalStake
    ensures j < |states| && Dot(MultiplierMatrix(states, legs)[j], w, |legs|) <= plan.minReturn
  {
    var matrix, count := MultiplierMatrix(states, legs), |legs|;
    MultipliersNonNegative(states, legs);
    var x := BestFractions(matrix, count, totalStake, s, n, m, w);
    plan := PlanFor(matrix, x, totalStake);
    StakesAddUp(matrix, x, totalStake, plan);
    j := PlanBeats(matrix, x, w, totalStake, plan, count);
  }

  lemma BestFractions(matrix: seq<seq<real>>, legs: nat, totalStake: real, s: Settings, n: nat, m: nat, w: seq<real>)
    returns (x: seq<real>)
    requires Rectangular(matrix, legs) && NonNegativeRows(matrix) && legs > 0 && |matrix| > 0 && totalStake > 0.0
    requires n == Variables(legs, |matrix|) && m == |matrix| + 2 && Exact(s, n, m)
    requires |w| == legs && NonNegative(w) && Sum(w, |w|) == totalStake
    ensures Fractions(matrix, legs, s) == Some(x) && IsSplit(x, legs)
    ensures MinReturn(matrix, Divided(w, totalStake), legs, |matrix| - 1) <= MinReturn(matrix, x, legs, |matrix| - 1)
  {
    SplitOfOne(w, totalStake, legs);
    var r := MaximinSplit(matrix, legs, s, n, m, Divided(w, totalStake));
    x := r.solution[..legs];
    FractionsAre(matrix, legs, s, r);
  }
}
