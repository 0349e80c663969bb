// How large the artificial cost has to be: phase two forbids artificials only by charging
// them, so a problem whose constraints are worth more than that charge gets them back.

module SimplexPenalty {
  import opened Vectors
  import opened Iteration
  import opened SimplexTableau
  import opened SimplexRun
  import opened SimplexBland
  import opened Simplex
  import opened SimplexTheorems

  // What row i of the flipped system still lacks at x.
  function Residual(A: seq<seq<real>>, b: seq<real>, n: nat, x: seq<real>): (r: seq<real>)
    requires |x| == n
    ensures |r| == |A|
    ensures forall i :: 0 <= i < |A| ==> r[i] == Abs(At(b, i)) - Flip(b, i, Dot(RowOf(A, i, n), x, n))
  {
    seq(|A|, i requires 0 <= i < |A| => Abs(At(b, i)) - Flip(b, i, Dot(RowOf(A, i, n), x, n)))
  }

  // Prices y for the rows under which no x >= 0 is worth less than v.
  ghost predicate Prices(c: seq<real>, A: seq<seq<real>>, b: seq<real>, y: seq<real>, v: real)
    requires |y| == |A|
  {
    forall x :: |x| == |c| && NonNegative(x) ==>
                  v <= Dot(c, x, |c|) + Dot(y, Residual(A, b, |c|, x), |A|)
  }

  lemma ResidualSolves(A: seq<seq<real>>, b: seq<real>, n: nat, x: seq<real>)
    requires |x| == n
    ensures Solves(Start(A, b, n), x + Residual(A, b, n, x), Width(A, n))
  {
    var z := x + Residual(A, b, n, x);
    assert z[..n] == x;
    StartSolves(A, b, n, z);
  }

  lemma SolutionIsResidual(A: seq<seq<real>>, b: seq<real>, n: nat, z: seq<real>)
    requires |z| == Width(A, n) && Solves(Start(A, b, n), z, Width(A, n))
    ensures z == z[..n] + Residual(A, b, n, z[..n])
  {
    StartSolves(A, b, n, z);
    var r := Residual(A, b, n, z[..n]);
    forall i | 0 <= i < |A| ensures z[n + i] == r[i] {
    }
  }

  // A vector over structural and artificial columns, split.
  lemma {:induction false} DotSplit(a: seq<real>, x: seq<real>, r: seq<real>, k: nat)
    requires |a| == |x| + |r| && k <= |r|
    ensures Dot(a, x + r, |x| + k) == Dot(a[..|x|], x, |x|) + Dot(a[|x|..], r, k)
  {
    if k == 0 {
      DotAgrees(a, a[..|x|], x + r, x, |x|);
    } else {
      DotSplit(a, x, r, k - 1);
      assert (x + r)[|x| + k - 1] == r[k - 1] && a[|x|..][k - 1] == a[|x| + k - 1];
    }
  }

  // Prices read off the reduced costs of the artificial columns.
  function PricesOf(t: Tableau, c: seq<real>, m: nat, each: real): (y: seq<real>)
    requires Shaped(t, |c| + m)
    ensures |y| == m
    ensures forall i :: 0 <= i < m ==> y[i] == each - Reduced(t, Costs(c, m, each), |c| + m, |c| + i)
  {
    seq(m, i requires 0 <= i < m => each - Reduced(t, Costs(c, m, each), |c| + m, |c| + i))
  }

  lemma {:induction false} DifferenceDot(a: seq<real>, b: seq<real>, y: seq<real>, r: seq<real>, m: nat)
    requires m <= |a| == |b| == |y| == |r| && forall i :: 0 <= i < m ==> y[i] == a[i] - b[i]
    ensures Dot(y, r, m) == Dot(a, r, m) - Dot(b, r, m)
  {
    if m > 0 {
      DifferenceDot(a, b, y, r, m - 1);
      Difference(a[m - 1], b[m - 1], r[m - 1]);
    }
  }

  lemma Difference(a: real, b: real, x: real)
    ensures (a - b) * x == a * x - b * x
  {
  }

  // cost·(x, r) = v + reduced·(x, r) with reduced costs >= 0 on x leaves v at most c·x + y·r.
  lemma BoundFromIdentity(c: seq<real>, m: nat, each: real, reduced: seq<real>, y: seq<real>, v: real,
                          x: seq<real>, r: seq<real>)
    requires |x| == |c| && |r| == |y| == m && |reduced| == |c| + m && NonNegative(x)
    requires forall j :: 0 <= j < |c| ==> reduced[j] >= 0.0
    requires forall i :: 0 <= i < m ==> y[i] == each - reduced[|c| + i]
    requires Dot(Costs(c, m, each), x + r, |c| + m) == v + Dot(reduced, x + r, |c| + m)
    ensures v <= Dot(c, x, |c|) + Dot(y, r, m)
  {
    var cost := Costs(c, m, each);
    DotSplit(cost, x, r, m);
    DotSplit(reduced, x, r, m);
    DifferenceDot(cost[|c|..], reduced[|c|..], y, r, m);
    DotNonNegative(reduced[..|c|], x, |c|);
    DotAgrees(cost[..|c|], c, x, x, |c|);
  }

  lemma PricesBound(start: Tableau, t: Tableau, c: seq<real>, m: nat, each: real, reduced: seq<real>,
                    x: seq<real>, r: seq<real>)
    requires Shaped(start, |c| + m) && |x| == |c| && |r| == m && NonNegative(x)
    requires Same(start, t, |c| + m, 0.0)
    requires reduced == ReducedRow(t, Costs(c, m, each), |c| + m) && NonNegative(reduced)
    requires Solves(start, x + r, |c| + m)
    ensures Value(t, Costs(c, m, each), |c| + m) <= Dot(c, x, |c|) + Dot(PricesOf(t, c, m, each), r, m)
  {
    var N, cost := |c| + m, Costs(c, m, each);
    assert Solves(t, x + r, N);
    ObjectiveIdentity(t, cost, N, x + r);
    BoundFromIdentity(c, m, each, reduced, PricesOf(t, c, m, each), Value(t, cost, N), x, r);
  }

  // An exact optimal end of phase two comes with prices of at most the artificial cost under
  // which nothing is worth less than the penalised optimum.
  lemma FinalPrices(c: seq<real>, A: seq<seq<real>>, b: seq<real>, each: real, fuel: nat, t: Tableau)
    requires PhaseEnd(Start(A, b, |c|), t, Optimal, Costs(c, |A|, each), Width(A, |c|), 0.0, fuel)
    ensures forall i :: 0 <= i < |A| ==> PricesOf(t, c, |A|, each)[i] <= each
    ensures Prices(c, A, b, PricesOf(t, c, |A|, each), Value(t, Costs(c, |A|, each), Width(A, |c|)))
  {
    var n, m := |c|, |A|;
    var reduced := ReducedRow(t, Costs(c, m, each), n + m);
    forall i | 0 <= i < m ensures PricesOf(t, c, m, each)[i] <= each {
      assert reduced[n + i] >= 0.0;
    }
    forall x | |x| == n && NonNegative(x)
      ensures Value(t, Costs(c, m, each), n + m) <= Dot(c, x, n) + Dot(PricesOf(t, c, m, each), Residual(A, b, n, x), m)
    {
      ResidualSolves(A, b, n, x);
      PricesBound(Start(A, b, n), t, c, m, each, reduced, x, Residual(A, b, n, x));
    }
  }

  // Under prices below the artificial cost, a point (x, r) worth at least v that costs at
  // most v has no artificials.
  lemma PenalisedFloor(c: seq<real>, m: nat, each: real, y: seq<real>, v: real, x: seq<real>, r: seq<real>,
                       N: nat, low: real, high: real)
    requires |x| == |c| && |r| == |y| == m && N == |c| + m && NonNegative(x + r)
    requires forall i :: 0 <= i < m ==> y[i] < each
    requires low == Dot(c, x, |c|) + Dot(y, r, m) && high == Dot(Costs(c, m, each), x + r, N)
    requires high <= v <= low
    ensures forall i :: 0 <= i < m ==> r[i] == 0.0
  {
    var cost := Costs(c, m, each);
    forall i | 0 <= i < m ensures r[i] >= 0.0 {
      assert r[i] == (x + r)[|c| + i];
    }
    DotSplit(cost, x, r, m);
    DotAgrees(cost[..|c|], c, x, x, |c|);
    DotMargin(cost[|c|..], y, r, m);
  }

  lemma {:induction false} DotMargin(a: seq<real>, y: seq<real>, r: seq<real>, k: nat)
    requires k <= |r| == |a| == |y| && NonNegative(r)
    requires forall i :: 0 <= i < |y| ==> y[i] < a[i]
    ensures Dot(a, r, k) >= Dot(y, r, k)
    ensures Dot(a, r, k) == Dot(y, r, k) ==> forall i :: 0 <= i < k ==> r[i] == 0.0
  {
    if k > 0 {
      DotMargin(a, y, r, k - 1);
      var gap := a[k - 1] - y[k - 1];
      assert a[k - 1] * r[k - 1] == y[k - 1] * r[k - 1] + gap * r[k - 1];
      assert gap * r[k - 1] >= 0.0 && (gap * r[k - 1] == 0.0 <==> r[k - 1] == 0.0);
    }
  }

  // The artificial cost is large enough as soon as some feasible x0 is worth v under prices
  // all below it: an exact optimal end then has every artificial at 0.
  lemma LargeEnough(c: seq<real>, A: seq<seq<real>>, b: seq<real>, each: real, fuel: nat, t: Tableau,
                    z: seq<real>, y: seq<real>, x0: seq<real>)
    requires PhaseEnd(Start(A, b, |c|), t, Optimal, Costs(c, |A|, each), Width(A, |c|), 0.0, fuel)
    requires z == Basic(t, Width(A, |c|))
    requires |y| == |A| && forall i :: 0 <= i < |A| ==> y[i] < each
    requires Feasible(A, b, |c|, x0) && Prices(c, A, b, y, Dot(c, x0, |c|))
    ensures ArtificialsZero(z, |c|)
  {
    CheaperThanFeasible(c, A, b, each, fuel, t, z, x0);
    PenalisedPoint(A, b, |c|, t, z);
    CheapPoint(c, A, b, each, y, Dot(c, x0, |c|), z, Width(A, |c|));
  }

  lemma PenalisedPoint(A: seq<seq<real>>, b: seq<real>, n: nat, t: Tableau, z: seq<real>)
    requires Same(Start(A, b, n), t, Width(A, n), 0.0) && z == Basic(t, Width(A, n))
    ensures |z| == Width(A, n) && NonNegative(z) && z == z[..n] + Residual(A, b, n, z[..n])
  {
    EndSolves(A, b, n, t, 0.0);
    SolutionIsResidual(A, b, n, z);
  }

  lemma CheapPoint(c: seq<real>, A: seq<seq<real>>, b: seq<real>, each: real, y: seq<real>, v: real, z: seq<real>, N: nat)
    requires |y| == |A| && forall i :: 0 <= i < |A| ==> y[i] < each
    requires N == Width(A, |c|) == |z| && Prices(c, A, b, y, v) && NonNegative(z)
    requires z == z[..|c|] + Residual(A, b, |c|, z[..|c|]) && Dot(Costs(c, |A|, each), z, N) <= v
    ensures ArtificialsZero(z, |c|)
  {
    var x := z[..|c|];
    var r := Residual(A, b, |c|, x);
    assert NonNegative(x);
    PenalisedFloor(c, |A|, each, y, v, x, r, N, Dot(c, x, |c|) + Dot(y, r, |A|), Dot(Costs(c, |A|, each), z, N));
    forall j | |c| <= j < |z| ensures z[j] == 0.0 {
      assert z[j] == r[j - |c|];
    }
  }

  lemma CheaperThanFeasible(c: seq<real>, A: seq<seq<real>>, b: seq<real>, each: real, fuel: nat, t: Tableau,
                            z: seq<real>, x0: seq<real>)
    requires PhaseEnd(Start(A, b, |c|), t, Optimal, Costs(c, |A|, each), Width(A, |c|), 0.0, fuel)
    requires Feasible(A, b, |c|, x0) && z == Basic(t, Width(A, |c|))
    ensures Dot(Costs(c, |A|, each), z, Width(A, |c|)) <= Dot(c, x0, |c|)
  {
    FeasibleSolvesStart(A, b, |c|, x0);
    OptimalExit(Start(A, b, |c|), t, Costs(c, |A|, each), Width(A, |c|), 0.0, fuel, x0 + Zeros(|A|));
    PaddedCost(c, |A|, each, 0.0, x0);
    NoSlack(x0 + Zeros(|A|), Width(A, |c|));
  }

  // Conversely, artificials at 0 mean that some feasible x0 is worth its own price under
  // prices of at most the artificial cost.
  lemma SmallEnoughPrices(c: seq<real>, A: seq<seq<real>>, b: seq<real>, each: real, fuel: nat, t: Tableau, z: seq<real>)
    returns (y: seq<real>, x0: seq<real>)
    requires PhaseEnd(Start(A, b, |c|), t, Optimal, Costs(c, |A|, each), Width(A, |c|), 0.0, fuel)
    requires z == Basic(t, Width(A, |c|)) && ArtificialsZero(z, |c|)
    ensures |y| == |A| && forall i :: 0 <= i < |A| ==> y[i] <= each
    ensures Feasible(A, b, |c|, x0) && Prices(c, A, b, y, Dot(c, x0, |c|))
  {
    y, x0 := PricesOf(t, c, |A|, each), z[..|c|];
    FinalPrices(c, A, b, each, fuel, t);
    ValueWithoutArtificials(c, |A|, each, t, z, Width(A, |c|));
    FeasiblePoint(A, b, |c|, t, z);
  }

  lemma FeasiblePoint(A: seq<seq<real>>, b: seq<real>, n: nat, t: Tableau, z: seq<real>)
    requires Same(Start(A, b, n), t, Width(A, n), 0.0) && z == Basic(t, Width(A, n)) && ArtificialsZero(z, n)
    ensures Feasible(A, b, n, z[..n])
  {
    EndSolvesIff(A, b, n, t, 0.0);
    EndSolves(A, b, n, t, 0.0);
  }

  lemma ValueWithoutArtificials(c: seq<real>, m: nat, each: real, t: Tableau, z: seq<real>, N: nat)
    requires N == |c| + m && Canonical(t, N) && z == Basic(t, N) && ArtificialsZero(z, |c|)
    ensures Value(t, Costs(c, m, each), N) == Dot(c, z[..|c|], |c|)
  {
    ValueOf(t, Costs(c, m, each), N, z);
    CostWithoutArtificials(c, m, each, z, N, Value(t, Costs(c, m, each), N));
  }

  lemma CostWithoutArtificials(c: seq<real>, m: nat, each: real, z: seq<real>, N: nat, v: real)
    requires N == |c| + m == |z| && ArtificialsZero(z, |c|) && v == Dot(Costs(c, m, each), z, N)
    ensures v == Dot(c, z[..|c|], |c|)
  {
    UnpaddedCost(c, m, each, z);
  }

  lemma ValueOf(t: Tableau, cost: seq<real>, n: nat, z: seq<real>)
    requires Canonical(t, n) && |cost| == n && z == Basic(t, n)
    ensures Value(t, cost, n) == Dot(cost, z, n)
  {
    BasicValue(t, cost, n);
  }

  // ---------------------------------------------------------------- one equation x = 1

  lemma RunHalts(t: Tableau, cost: seq<real>, n: nat, eps: Tolerance, fuel: nat, exit: Exit)
    requires Shaped(t, n) && |cost| == n && fuel >= 1 && Choose(t, cost, n, eps) == Halt(exit)
    ensures Run(t, cost, n, eps, fuel) == (t, exit)
  {
  }

  lemma RunOnce(t: Tableau, t': Tableau, cost: seq<real>, n: nat, eps: Tolerance, fuel: nat, e: nat, r: nat, exit: Exit)
    requires Shaped(t, n) && |cost| == n && fuel >= 2
    requires Choose(t, cost, n, eps) == Swap(e, r) && t' == Pivot(t, r, e, n)
    requires Choose(t', cost, n, eps) == Halt(exit)
    ensures Run(t, cost, n, eps, fuel) == (t', exit)
  {
    assert Turns(cost, n, eps)(t) == Next(t');
    RunHalts(t', cost, n, eps, fuel - 1, exit);
  }

  // The tableau of x + art = 1 with the given basic column.
  function Unit(basic: nat): (t: Tableau)
    requires basic < 2
    ensures Canonical(t, 2) && RhsNonNegative(t, 2)
  {
    Tableau([[1.0, 1.0, 1.0]], [basic])
  }

  lemma UnitPriced(basic: nat, c: seq<real>, j: nat)
    requires basic < 2 && |c| == 2 && j <= 2
    ensures Priced(Unit(basic), c, 2, j, 1) == c[basic]
  {
    assert Priced(Unit(basic), c, 2, j, 0) == 0.0;
  }

  // The other column enters when it is cheaper by more than eps.
  lemma UnitChoice(basic: nat, c: seq<real>, eps: Tolerance)
    requires basic < 2 && |c| == 2 && eps < 1.0
    ensures Choose(Unit(basic), c, 2, eps) == if c[1 - basic] < c[basic] - eps then Swap(1 - basic, 0) else Halt(Optimal)
  {
    var t := Unit(basic);
    UnitPriced(basic, c, 0);
    UnitPriced(basic, c, 1);
    assert RatioTest(t, 1 - basic, 2, eps, 1).Row? by {
      assert RatioTest(t, 1 - basic, 2, eps, 0) == NoRow;
    }
    assert Entering(t, c, 2, eps, 2) == 2;
    assert Entering(t, c, 2, eps, 1) == if Reduced(t, c, 2, 1) < 0.0 - eps then 1 else 2;
  }

  lemma UnitPivot(basic: nat)
    requires basic < 2
    ensures Pivot(Unit(basic), 0, 1 - basic, 2) == Unit(1 - basic)
  {
    var t := Unit(basic);
    assert PivotedRow(t, 0, 1 - basic, 2, 0) == [1.0, 1.0, 1.0];
    assert Pivot(t, 0, 1 - basic, 2).rows == [[1.0, 1.0, 1.0]];
    assert [basic][0 := 1 - basic] == [1 - basic];
  }

  lemma UnitRun(basic: nat, c: seq<real>, eps: Tolerance, fuel: nat)
    requires basic < 2 && |c| == 2 && eps < 1.0 && fuel >= 2
    ensures Run(Unit(basic), c, 2, eps, fuel) == (Unit(if c[1 - basic] < c[basic] - eps then 1 - basic else basic), Optimal)
  {
    UnitChoice(basic, c, eps);
    if c[1 - basic] < c[basic] - eps {
      UnitPivot(basic);
      UnitChoice(1 - basic, c, eps);
      RunOnce(Unit(basic), Unit(1 - basic), c, 2, eps, fuel, 1 - basic, 0, Optimal);
    } else {
      RunHalts(Unit(basic), c, 2, eps, fuel, Optimal);
    }
  }

  lemma UnitHandover(s: Settings)
    requires Sensible(s) && s.eps < 1.0 && s.maxIterations >= 2
    ensures Handover([[1.0]], [1.0], 1, s) == Clear(Unit(0))
  {
    var A, b := [[1.0]], [1.0];
    var cost := Costs(Zeros(1), 1, 1.0);
    assert StartRow(A, b, 1, 0) == [1.0, 1.0, 1.0];
    assert Start(A, b, 1) == Unit(1);
    UnitRun(1, cost, s.eps, s.maxIterations);
    UnitPriced(0, cost, 2);
  }

  lemma UnitResult(basic: nat, price: real)
    requires basic < 2
    ensures ResultOf([price], 1, Unit(basic)).status == Optimum
    ensures ResultOf([price], 1, Unit(basic)).solution == [if basic == 0 then 1.0 else 0.0]
  {
    var z := Basic(Unit(basic), 2);
    BasicSolves(Unit(basic), 2);
    assert Unit(basic).basis[0] == basic;
    assert z[..1] == [z[0]];
  }

  lemma UnitEquation(x: real)
    ensures SolvesEquations([[1.0]], [1.0], 1, [x]) <==> x == 1.0
  {
    var row := RowOf([[1.0]], 0, 1);
    assert Dot(row, [x], 0) == 0.0;
    assert Dot(row, [x], 1) == x;
  }

  lemma UnitPhaseTwo(price: real, s: Settings)
    requires Sensible(s) && s.eps < 1.0 && s.maxIterations >= 2
    ensures Handover([[1.0]], [1.0], 1, s).Clear?
    ensures PhaseTwo([price], [[1.0]], [1.0], s) == (Unit(if price > s.artificialCost + s.eps then 1 else 0), Optimal)
  {
    UnitHandover(s);
    UnitRun(0, Costs([price], 1, s.artificialCost), s.eps, s.maxIterations);
  }

  // minimize price * x subject to x = 1: the solver reports x = 1 exactly when the price is at
  // most the artificial cost (within eps); above it, it reports an "optimum" at x = 0, which
  // is not feasible.
  lemma HugeCostIsNotSolved(price: real, s: Settings)
    requires Sensible(s) && s.eps < 1.0 && s.maxIterations >= 2
    ensures Minimize([price], [[1.0]], [1.0], s).status == Optimum
    ensures Minimize([price], [[1.0]], [1.0], s).solution == [if price > s.artificialCost + s.eps then 0.0 else 1.0]
    ensures SolvesEquations([[1.0]], [1.0], 1, [if price > s.artificialCost + s.eps then 0.0 else 1.0])
            <==> price <= s.artificialCost + s.eps
  {
    UnitPhaseTwo(price, s);
    UnitResult(if price > s.artificialCost + s.eps then 1 else 0, price);
    UnitEquation(if price > s.artificialCost + s.eps then 0.0 else 1.0);
  }
}
