// The unbounded verdict: given exactly when no row prices up to the artificial cost hold the
// objective up, and right exactly when no row prices of any size do.

module SimplexDuality {
  import opened Vectors
  import opened Counting
  import opened Iteration
  import opened SimplexTableau
  import opened SimplexRun
  import opened SimplexBland
  import opened Simplex
  import opened SimplexTheorems
  import opened SimplexPenalty

  // Some prices of at most `each` hold the objective above some value.
  ghost predicate HeldUp(c: seq<real>, A: seq<seq<real>>, b: seq<real>, each: real) {
    exists y, v :: |y| == |A| && (forall i :: 0 <= i < |A| ==> y[i] <= each) && Prices(c, A, b, y, v)
  }

  // Some prices, however large, hold it above some value.
  ghost predicate HasPrices(c: seq<real>, A: seq<seq<real>>, b: seq<real>) {
    exists y, v :: |y| == |A| && Prices(c, A, b, y, v)
  }

  // Some feasible point is cheaper than `bound`.
  ghost predicate FallsBelow(c: seq<real>, A: seq<seq<real>>, b: seq<real>, bound: real) {
    exists x :: Feasible(A, b, |c|, x) && Dot(c, x, |c|) < bound
  }

  // Feasible points get cheaper than anything.
  ghost predicate RunsOff(c: seq<real>, A: seq<seq<real>>, b: seq<real>) {
    forall bound: real :: FallsBelow(c, A, b, bound)
  }

  // ---------------------------------------------------------------- when the verdict is given

  lemma {:induction false} DotAtMost(a: seq<real>, y: seq<real>, r: seq<real>, k: nat)
    requires k <= |r| == |a| == |y| && NonNegative(r)
    requires forall i :: 0 <= i < |y| ==> y[i] <= a[i]
    ensures Dot(y, r, k) <= Dot(a, r, k)
  {
    if k > 0 {
      DotAtMost(a, y, r, k - 1);
      ProductNonNegative(a[k - 1] - y[k - 1], r[k - 1]);
      Difference(a[k - 1], y[k - 1], r[k - 1]);
    }
  }

  lemma SplitCost(c: seq<real>, each: real, y: seq<real>, x: seq<real>, r: seq<real>, N: nat)
    requires |x| == |c| && |y| == |r| && N == |c| + |r| && NonNegative(r)
    requires forall i :: 0 <= i < |y| ==> y[i] <= each
    ensures Dot(c, x, |c|) + Dot(y, r, |r|) <= Dot(Costs(c, |r|, each), x + r, N)
  {
    var cost := Costs(c, |r|, each);
    DotSplit(cost, x, r, |r|);
    DotAgrees(cost[..|c|], c, x, x, |c|);
    DotAtMost(cost[|c|..], y, r, |r|);
  }

  lemma PricesAt(c: seq<real>, A: seq<seq<real>>, b: seq<real>, y: seq<real>, v: real, x: seq<real>)
    requires |y| == |A| && |x| == |c| && NonNegative(x) && Prices(c, A, b, y, v)
    ensures v <= Dot(c, x, |c|) + Dot(y, Residual(A, b, |c|, x), |A|)
  {
  }

  lemma Halves(z: seq<real>, n: nat, r: seq<real>)
    requires n <= |z| && NonNegative(z) && z == z[..n] + r
    ensures NonNegative(z[..n]) && NonNegative(r)
  {
    assert forall i :: 0 <= i < |r| ==> r[i] == z[n + i];
  }

  // Prices of at most the artificial cost hold the penalised objective up as well.
  lemma PenalisedAtLeast(c: seq<real>, A: seq<seq<real>>, b: seq<real>, each: real, y: seq<real>, v: real,
                         z: seq<real>, N: nat)
    requires N == |c| + |A| == |z| && NonNegative(z) && z == z[..|c|] + Residual(A, b, |c|, z[..|c|])
    requires |y| == |A| && (forall i :: 0 <= i < |A| ==> y[i] <= each) && Prices(c, A, b, y, v)
    ensures v <= Dot(Costs(c, |A|, each), z, N)
  {
    var x := z[..|c|];
    var r := Residual(A, b, |c|, x);
    Halves(z, |c|, r);
    PricesAt(c, A, b, y, v, x);
    SplitCost(c, each, y, x, r, N);
  }

  // How an exact phase two ends tells whether such prices exist.
  lemma ExitByPrices(c: seq<real>, A: seq<seq<real>>, b: seq<real>, each: real, fuel: nat, t: Tableau, exit: Exit)
    requires PhaseEnd(Start(A, b, |c|), t, exit, Costs(c, |A|, each), Width(A, |c|), 0.0, fuel) && exit != Capped
    ensures exit == Unbounded <==> !HeldUp(c, A, b, each)
  {
    if exit == Optimal {
      FinalPrices(c, A, b, each, fuel, t);
    } else if HeldUp(c, A, b, each) {
      var y, v :| |y| == |A| && (forall i :: 0 <= i < |A| ==> y[i] <= each) && Prices(c, A, b, y, v);
      StartCanonical(A, b, |c|);
      var z := UnboundedExit(Start(A, b, |c|), t, Costs(c, |A|, each), Width(A, |c|), fuel, v);
      SolutionIsResidual(A, b, |c|, z);
      PenalisedAtLeast(c, A, b, each, y, v, z, Width(A, |c|));
    }
  }

  // With tolerance 0 and no iteration limit in the way the solver reports `unbounded` when and
  // only when something is feasible and no prices up to the artificial cost hold the objective up.
  lemma NoBoundVerdict(c: seq<real>, A: seq<seq<real>>, b: seq<real>, s: Settings)
    requires Sensible(s) && s.eps == 0.0 && |A| > 0 && s.maxIterations >= Binomial(Width(A, |c|), |A|)
    ensures Minimize(c, A, b, s).status == NoBound <==>
              (exists x :: Feasible(A, b, |c|, x)) && !HeldUp(c, A, b, s.artificialCost)
  {
    ExactPhaseOneStops(A, b, |c|, s);
    ExactInfeasible(A, b, |c|, s);
    if Handover(A, b, |c|, s).Clear? {
      ExactPhaseTwoStops(c, A, b, s);
      var t, exit := PhaseTwoEnds(c, A, b, s);
      ExitByPrices(c, A, b, s.artificialCost, s.maxIterations, t, exit);
    }
  }

  // ---------------------------------------------------------------- when the verdict is right

  lemma NoResidual(A: seq<seq<real>>, b: seq<real>, n: nat, x: seq<real>, y: seq<real>)
    requires Feasible(A, b, n, x) && |y| == |A|
    ensures Dot(y, Residual(A, b, n, x), |A|) == 0.0
  {
    var r := Residual(A, b, n, x);
    forall i | 0 <= i < |A| ensures r[i] == 0.0 {
      assert Dot(RowOf(A, i, n), x, n) == At(b, i);
    }
    DotZeros(y, r, |A|);
  }

  // Weak duality: prices bound the objective on the feasible points.
  lemma PricesHold(c: seq<real>, A: seq<seq<real>>, b: seq<real>, y: seq<real>, v: real)
    requires |y| == |A| && Prices(c, A, b, y, v)
    ensures !FallsBelow(c, A, b, v)
  {
    forall x | Feasible(A, b, |c|, x) ensures Dot(c, x, |c|) >= v {
      NoResidual(A, b, |c|, x, y);
    }
  }

  // The program with one more row and column: c·x + slack = beta on top of A x = b.
  function Capping(c: seq<real>, A: seq<seq<real>>): (rows: seq<seq<real>>)
    ensures |rows| == |A| + 1
  {
    seq(|A|, i requires 0 <= i < |A| => RowOf(A, i, |c|) + [0.0]) + [c + [1.0]]
  }

  function RightSides(b: seq<real>, m: nat, beta: real): (r: seq<real>)
    ensures |r| == m + 1 && r[m] == beta && forall i :: 0 <= i < m ==> r[i] == At(b, i)
  {
    seq(m, i => if i < 0 then 0.0 else At(b, i)) + [beta]
  }

  lemma AppendedDot(a: seq<real>, u: real, x: seq<real>, w: real, n: nat)
    requires |a| == |x| == n
    ensures Dot(a + [u], x + [w], n + 1) == Dot(a, x, n) + u * w
  {
    DotAgrees(a + [u], a, x + [w], x, n);
  }

  lemma RowsAgree(row: seq<real>, a: seq<real>, x: seq<real>, n: nat)
    requires |row| == |a| == |x| == n && forall j :: 0 <= j < n ==> row[j] == a[j]
    ensures Dot(row, x, n) == Dot(a, x, n)
  {
    DotAgrees(row, a, x, x, n);
  }

  // A row of the larger program, weighed at (x, w).
  lemma CappingDot(c: seq<real>, A: seq<seq<real>>, x: seq<real>, w: real, i: nat, n: nat)
    requires |x| == |c| == n && i <= |A|
    ensures Dot(RowOf(Capping(c, A), i, n + 1), x + [w], n + 1)
            == if i < |A| then Dot(RowOf(A, i, n), x, n) else Dot(c, x, n) + w
  {
    var (row, last) := if i < |A| then (RowOf(A, i, n), 0.0) else (c, 1.0);
    assert Capping(c, A)[i] == row + [last];
    RowsAgree(RowOf(Capping(c, A), i, n + 1), row + [last], x + [w], n + 1);
    AppendedDot(row, last, x, w, n);
  }

  // What the larger program lacks at (x, w): what the smaller one lacks at x, and by how much
  // c·x + w exceeds beta.
  lemma CappingResidual(c: seq<real>, A: seq<seq<real>>, b: seq<real>, beta: real, x: seq<real>, w: real, n: nat)
    requires |x| == |c| == n && beta < 0.0
    ensures Residual(Capping(c, A), RightSides(b, |A|, beta), n + 1, x + [w])
            == Residual(A, b, n, x) + [Dot(c, x, n) + w - beta]
  {
    var r := Residual(Capping(c, A), RightSides(b, |A|, beta), n + 1, x + [w]);
    forall i | 0 <= i <= |A|
      ensures r[i] == (Residual(A, b, n, x) + [Dot(c, x, n) + w - beta])[i]
    {
      CappingDot(c, A, x, w, i, n);
    }
  }

  // A solution of the larger program is a feasible point that costs at most beta.
  lemma CappingInfeasible(c: seq<real>, A: seq<seq<real>>, b: seq<real>, beta: real, z: seq<real>)
    requires Feasible(Capping(c, A), RightSides(b, |A|, beta), |c| + 1, z)
    ensures FallsBelow(c, A, b, beta + 1.0)
  {
    var n := |c|;
    var x, w := z[..n], z[n];
    assert z == x + [w];
    forall i | 0 <= i < |A| ensures Dot(RowOf(A, i, n), x, n) == At(b, i) {
      CappingDot(c, A, x, w, i, n);
      assert Dot(RowOf(Capping(c, A), i, n + 1), z, n + 1) == At(RightSides(b, |A|, beta), i);
    }
    CappingDot(c, A, x, w, |A|, n);
    assert Dot(RowOf(Capping(c, A), |A|, n + 1), z, n + 1) == At(RightSides(b, |A|, beta), |A|);
    assert Feasible(A, b, n, x) && Dot(c, x, n) < beta + 1.0;
  }

  // An infeasible program has prices under which every x >= 0 lacks something.
  lemma InfeasiblePrices(A: seq<seq<real>>, b: seq<real>, n: nat) returns (y: seq<real>, v: real)
    requires forall x :: !Feasible(A, b, n, x)
    ensures |y| == |A| && v > 0.0 && Prices(Zeros(n), A, b, y, v)
  {
    var s := Settings(0.0, Binomial(Width(A, n), |A|), 0.0, 0.0);
    ExactPhaseOneStops(A, b, n, s);
    ExactInfeasible(A, b, n, s);
    var t, exit := ExactHandover(A, b, n, s);
    var c := Zeros(n);
    FinalPrices(c, A, b, 1.0, s.maxIterations, t);
    y, v := PricesOf(t, c, |A|, 1.0), Value(t, Costs(c, |A|, 1.0), Width(A, n));
  }

  // What the prices (y, w) of the larger program say about a point of the smaller one.
  ghost predicate JointAt(c: seq<real>, A: seq<seq<real>>, b: seq<real>, y: seq<real>, w: real, beta: real, v: real,
                          x: seq<real>)
    requires |y| == |A| && |x| == |c|
  {
    Floor(v, Dot(y, Residual(A, b, |c|, x), |A|), w, Over(c, x, beta))
  }

  ghost predicate Floor(v: real, p: real, w: real, over: real) {
    v <= p + w * over
  }

  // By how much c·x exceeds beta.
  function Over(c: seq<real>, x: seq<real>, beta: real): real
    requires |x| == |c|
  {
    Dot(c, x, |c|) - beta
  }

  lemma JointPrices(c: seq<real>, A: seq<seq<real>>, b: seq<real>, beta: real) returns (y: seq<real>, w: real, v: real)
    requires beta < 0.0 && !FallsBelow(c, A, b, beta + 1.0)
    ensures |y| == |A| && v > 0.0
    ensures forall x :: |x| == |c| && NonNegative(x) ==> JointAt(c, A, b, y, w, beta, v, x)
  {
    var N, rows, right := |c| + 1, Capping(c, A), RightSides(b, |A|, beta);
    forall z ensures !Feasible(rows, right, N, z) {
      if Feasible(rows, right, N, z) {
        CappingInfeasible(c, A, b, beta, z);
      }
    }
    var all;
    all, v := InfeasiblePrices(rows, right, N);
    y, w := all[..|A|], all[|A|];
    assert y + [w] == all;
    forall x | |x| == |c| && NonNegative(x) ensures JointAt(c, A, b, y, w, beta, v, x) {
      JointFrom(c, A, b, beta, y, w, v, x, |c|, |A|, N);
    }
  }

  // Prices for a free program: no point lacks less than v at them.
  lemma FreePrices(A: seq<seq<real>>, b: seq<real>, n: nat, y: seq<real>, v: real, z: seq<real>)
    requires |y| == |A| && |z| == n && NonNegative(z) && Prices(Zeros(n), A, b, y, v)
    ensures v <= Dot(y, Residual(A, b, n, z), |A|)
  {
    DotZeros(Zeros(n), z, n);
  }

  lemma SplitPrices(y: seq<real>, w: real, low: seq<real>, over: real, v: real, all: seq<real>, r: seq<real>, M: nat)
    requires |y| == |low| && M == |y| + 1 && all == y + [w] && r == low + [over] && v <= Dot(all, r, M)
    ensures v <= Dot(y, low, |y|) + w * over
  {
    AppendedDot(y, w, low, over, |y|);
  }

  lemma CappingPrices(c: seq<real>, A: seq<seq<real>>, b: seq<real>, beta: real, all: seq<real>, v: real, x: seq<real>,
                      n: nat, N: nat, r: seq<real>)
    requires n == |c| == |x| && N == n + 1 && beta < 0.0 && NonNegative(x) && |all| == |Capping(c, A)|
    requires Prices(Zeros(N), Capping(c, A), RightSides(b, |A|, beta), all, v)
    requires r == Residual(Capping(c, A), RightSides(b, |A|, beta), N, x + [0.0])
    ensures v <= Dot(all, r, |all|)
  {
    FreePrices(Capping(c, A), RightSides(b, |A|, beta), N, all, v, x + [0.0]);
  }

  lemma JointFrom(c: seq<real>, A: seq<seq<real>>, b: seq<real>, beta: real, y: seq<real>, w: real, v: real, x: seq<real>,
                  n: nat, m: nat, N: nat)
    requires n == |c| && m == |A| && N == n + 1 && beta < 0.0 && |y| == m && |x| == n && NonNegative(x)
    requires Prices(Zeros(N), Capping(c, A), RightSides(b, m, beta), y + [w], v)
    ensures JointAt(c, A, b, y, w, beta, v, x)
  {
    var r := Residual(Capping(c, A), RightSides(b, m, beta), N, x + [0.0]);
    CappingPrices(c, A, b, beta, y + [w], v, x, n, N, r);
    CappingResidual(c, A, b, beta, x, 0.0, n);
    var low, over := Residual(A, b, n, x), Over(c, x, beta);
    assert r == low + [over];
    SplitPrices(y, w, low, over, v, y + [w], r, |y + [w]|);
    JointSplit(c, A, b, beta, y, w, v, x, low, over);
  }

  lemma JointSplit(c: seq<real>, A: seq<seq<real>>, b: seq<real>, beta: real, y: seq<real>, w: real, v: real, x: seq<real>,
                   low: seq<real>, over: real)
    requires |y| == |A| && |x| == |c| && low == Residual(A, b, |c|, x) && over == Over(c, x, beta)
    requires v <= Dot(y, low, |y|) + w * over
    ensures JointAt(c, A, b, y, w, beta, v, x)
  {
  }

  // The price of the capping row is positive as soon as something is feasible.
  lemma RowPricePositive(c: seq<real>, A: seq<seq<real>>, b: seq<real>, y: seq<real>, w: real, beta: real, v: real,
                         x: seq<real>)
    requires Feasible(A, b, |c|, x) && !FallsBelow(c, A, b, beta + 1.0)
    requires |y| == |A| && v > 0.0 && JointAt(c, A, b, y, w, beta, v, x)
    ensures w > 0.0
  {
    NoResidual(A, b, |c|, x, y);
    var over := Over(c, x, beta);
    assert over > 0.0 && v <= w * over;
    SignOfProduct(-w, over);
  }

  lemma Scaled(v: real, p: real, w: real, over: real, q: real)
    requires w > 0.0 && v > 0.0 && Floor(v, p, w, over) && q == p / w
    ensures 0.0 <= q + over
  {
    assert (p + w * over) / w == p / w + over;
  }

  lemma DividedPrices(y: seq<real>, w: real, r: seq<real>, m: nat, p: real, v: real, over: real)
    requires |y| == |r| == m && w > 0.0 && v > 0.0 && p == Dot(y, r, m) && Floor(v, p, w, over)
    ensures 0.0 <= Dot(Divided(y, w), r, m) + over
  {
    DotDivided(y, w, r, m);
    Scaled(v, p, w, over, Dot(Divided(y, w), r, m));
  }

  // Strong duality: a feasible program whose objective does not run off has prices.
  lemma PricesExist(c: seq<real>, A: seq<seq<real>>, b: seq<real>, x0: seq<real>, beta: real)
    returns (prices: seq<real>)
    requires beta < 0.0 && Feasible(A, b, |c|, x0) && !FallsBelow(c, A, b, beta + 1.0)
    ensures |prices| == |A| && Prices(c, A, b, prices, beta)
  {
    var y, w, v := JointPrices(c, A, b, beta);
    RowPricePositive(c, A, b, y, w, beta, v, x0);
    prices := Divided(y, w);
    forall x | |x| == |c| && NonNegative(x)
      ensures beta <= Dot(c, x, |c|) + Dot(prices, Residual(A, b, |c|, x), |A|)
    {
      var r := Residual(A, b, |c|, x);
      assert JointAt(c, A, b, y, w, beta, v, x);
      DividedPrices(y, w, r, |A|, Dot(y, r, |A|), v, Over(c, x, beta));
    }
  }

  // A feasible program runs off exactly when it has no prices at all.
  lemma RunsOffExactlyWhen(c: seq<real>, A: seq<seq<real>>, b: seq<real>, x0: seq<real>)
    requires Feasible(A, b, |c|, x0)
    ensures RunsOff(c, A, b) <==> !HasPrices(c, A, b)
  {
    if HasPrices(c, A, b) {
      var y, v :| |y| == |A| && Prices(c, A, b, y, v);
      PricesHold(c, A, b, y, v);
    }
    if !RunsOff(c, A, b) {
      var bound: real :| !FallsBelow(c, A, b, bound);
      var beta := (if bound < 0.0 then bound else 0.0) - 1.0;
      var y := PricesExist(c, A, b, x0, beta);
    }
  }

  // The unbounded verdict is never missed, and it is wrong exactly when prices hold the
  // objective up but none of them stays within the artificial cost.
  lemma NoBoundIsRightExactlyWhen(c: seq<real>, A: seq<seq<real>>, b: seq<real>, s: Settings)
    requires Sensible(s) && s.eps == 0.0 && |A| > 0 && s.maxIterations >= Binomial(Width(A, |c|), |A|)
    ensures RunsOff(c, A, b) ==> Minimize(c, A, b, s).status == NoBound
    ensures Minimize(c, A, b, s).status == NoBound ==> (RunsOff(c, A, b) <==> !HasPrices(c, A, b))
    ensures (Minimize(c, A, b, s).status == NoBound && !RunsOff(c, A, b)) <==>
              ((exists x :: Feasible(A, b, |c|, x)) && HasPrices(c, A, b) && !HeldUp(c, A, b, s.artificialCost))
  {
    NoBoundVerdict(c, A, b, s);
    if exists x :: Feasible(A, b, |c|, x) {
      var x0 :| Feasible(A, b, |c|, x0);
      RunsOffExactlyWhen(c, A, b, x0);
    } else {
      assert !FallsBelow(c, A, b, 0.0);
    }
  }

  // ---------------------------------------------------------------- every verdict of the exact solver

  // Some feasible point is worth its cost under prices all below `each`.
  ghost predicate Affordable(c: seq<real>, A: seq<seq<real>>, b: seq<real>, each: real) {
    exists x, y :: |y| == |A| && (forall i :: 0 <= i < |A| ==> y[i] < each)
                   && Feasible(A, b, |c|, x) && Prices(c, A, b, y, Dot(c, x, |c|))
  }

  lemma AffordableIsSolved(c: seq<real>, A: seq<seq<real>>, b: seq<real>, s: Settings)
    requires Sensible(s) && s.eps == 0.0 && |A| > 0 && s.maxIterations >= Binomial(Width(A, |c|), |A|)
    requires Minimize(c, A, b, s).status == Optimum && Affordable(c, A, b, s.artificialCost)
    ensures |Minimize(c, A, b, s).solution| == |c| && SolvesEquations(A, b, |c|, Minimize(c, A, b, s).solution)
  {
    var x, y :| |y| == |A| && (forall i :: 0 <= i < |A| ==> y[i] < s.artificialCost)
                && Feasible(A, b, |c|, x) && Prices(c, A, b, y, Dot(c, x, |c|));
    var t, exit := SolvesIffArtificialsZero(c, A, b, s);
    ExactPhaseTwoStops(c, A, b, s);
    LargeEnough(c, A, b, s.artificialCost, s.maxIterations, t, Basic(t, Width(A, |c|)), y, x);
  }

  // The exact solver, run without an iteration limit in its way. Each of its three verdicts says
  // exactly what it says; an optimum it reports solves A x = b whenever the artificial cost is
  // large enough for some feasible point, and then no feasible point is cheaper.
  lemma ExactVerdicts(c: seq<real>, A: seq<seq<real>>, b: seq<real>, s: Settings, x: seq<real>) returns (r: SimplexResult)
    requires Sensible(s) && s.eps == 0.0 && |A| > 0 && s.maxIterations >= Binomial(Width(A, |c|), |A|)
    ensures r == Minimize(c, A, b, s)
    ensures r.status == Infeasible <==> forall y :: !Feasible(A, b, |c|, y)
    ensures r.status == NoBound <==> (exists y :: Feasible(A, b, |c|, y)) && !HeldUp(c, A, b, s.artificialCost)
    ensures r.status == Optimum <==> (exists y :: Feasible(A, b, |c|, y)) && HeldUp(c, A, b, s.artificialCost)
    ensures r.status == Optimum ==> |r.solution| == |c| && NonNegative(r.solution)
    ensures r.status == Optimum && Affordable(c, A, b, s.artificialCost) ==> SolvesEquations(A, b, |c|, r.solution)
    ensures r.status == Optimum && SolvesEquations(A, b, |c|, r.solution) && Feasible(A, b, |c|, x) ==>
              r.objective <= Dot(c, x, |c|)
  {
    r := ExactSolver(c, A, b, s, x);
    NoBoundVerdict(c, A, b, s);
    if r.status == Optimum && Affordable(c, A, b, s.artificialCost) {
      AffordableIsSolved(c, A, b, s);
    }
  }

  // ---------------------------------------------------------------- minimize -price * x subject to -x = 0

  // The tableau of -x + art = 0: phase one stops at it, driving out the artificial pivots x in.
  function Pinned(basic: nat): (t: Tableau)
    requires basic < 2
    ensures Canonical(t, 2) && RhsNonNegative(t, 2)
  {
    if basic == 1 then Tableau([[-1.0, 1.0, 0.0]], [1]) else Tableau([[1.0, -1.0, 0.0]], [0])
  }

  lemma PinnedPriced(basic: nat, c: seq<real>, j: nat)
    requires basic < 2 && |c| == 2 && j <= 2
    ensures Priced(Pinned(basic), c, 2, j, 1) == c[basic] * Pinned(basic).rows[0][j]
  {
    assert Priced(Pinned(basic), c, 2, j, 0) == 0.0;
  }

  // With one column basic, only the other can enter, and no row lets it.
  lemma PinnedChoice(basic: nat, c: seq<real>, eps: Tolerance)
    requires basic < 2 && |c| == 2
    ensures Choose(Pinned(basic), c, 2, eps) == Halt(if c[0] + c[1] < 0.0 - eps then Unbounded else Optimal)
  {
    var t, e := Pinned(basic), 1 - basic;
    PinnedPriced(basic, c, 0);
    PinnedPriced(basic, c, 1);
    assert RatioTest(t, e, 2, eps, 1) == NoRow by {
      assert RatioTest(t, e, 2, eps, 0) == NoRow;
    }
    assert Entering(t, c, 2, eps, 2) == 2;
    assert Entering(t, c, 2, eps, 1) == if Reduced(t, c, 2, 1) < 0.0 - eps then 1 else 2;
  }

  lemma PinnedPivot()
    ensures Pivot(Pinned(1), 0, 0, 2) == Pinned(0)
  {
    var t := Pinned(1);
    assert PivotedRow(t, 0, 0, 2, 0) == [1.0, -1.0, 0.0];
    assert Pivot(t, 0, 0, 2).rows == [[1.0, -1.0, 0.0]];
    assert [1][0 := 0] == [0];
  }

  lemma PinnedPhaseOne(s: Settings)
    requires Sensible(s) && s.maxIterations >= 1
    ensures PhaseOne([[-1.0]], [0.0], 1, s) == (Pinned(1), Optimal)
    ensures Value(Pinned(1), Costs(Zeros(1), 1, 1.0), 2) == 0.0
  {
    var A, b, cost := [[-1.0]], [0.0], Costs(Zeros(1), 1, 1.0);
    assert StartRow(A, b, 1, 0) == [-1.0, 1.0, 0.0];
    assert Start(A, b, 1) == Pinned(1);
    PinnedChoice(1, cost, s.eps);
    RunHalts(Pinned(1), cost, 2, s.eps, s.maxIterations, Optimal);
    PinnedPriced(1, cost, 2);
  }

  lemma PinnedHandover(s: Settings)
    requires Sensible(s) && s.eps < 1.0 && s.maxIterations >= 1
    ensures Handover([[-1.0]], [0.0], 1, s) == Clear(Pinned(0))
  {
    PinnedPhaseOne(s);
    PinnedPivot();
    assert Replacement(Pinned(1), 1, 1, s.eps, 0, 0) == 0;
    assert DriveRow(Pinned(1), 1, 1, s.eps, 0) == Clear(Pinned(0));
    assert DriveOut(Pinned(0), 1, 1, s.eps, 1) == Clear(Pinned(0));
  }

  lemma PinnedPhaseTwo(price: real, s: Settings)
    requires Sensible(s) && s.eps < 1.0 && s.maxIterations >= 1
    ensures Handover([[-1.0]], [0.0], 1, s).Clear?
    ensures PhaseTwo([-price], [[-1.0]], [0.0], s)
            == (Pinned(0), if price > s.artificialCost + s.eps then Unbounded else Optimal)
  {
    var exit := if price > s.artificialCost + s.eps then Unbounded else Optimal;
    PinnedHandover(s);
    PinnedChoice(0, Costs([-price], 1, s.artificialCost), s.eps);
    RunHalts(Pinned(0), Costs([-price], 1, s.artificialCost), 2, s.eps, s.maxIterations, exit);
  }

  lemma PinnedPoint(x: real)
    ensures Feasible([[-1.0]], [0.0], 1, [x]) <==> x == 0.0
  {
    var row := RowOf([[-1.0]], 0, 1);
    assert Dot(row, [x], 0) == 0.0;
    assert Dot(row, [x], 1) == -x;
  }

  // minimize -price * x subject to -x = 0: the only feasible point is 0 and so is the optimum,
  // yet the solver reports `unbounded` exactly when the price exceeds the artificial cost
  // (by more than eps).
  lemma PinnedIsReportedUnbounded(price: real, s: Settings, bound: real)
    requires Sensible(s) && s.eps < 1.0 && s.maxIterations >= 1
    ensures Minimize([-price], [[-1.0]], [0.0], s).status == NoBound <==> price > s.artificialCost + s.eps
    ensures FallsBelow([-price], [[-1.0]], [0.0], bound) <==> 0.0 < bound
  {
    PinnedPhaseTwo(price, s);
    PinnedPoint(0.0);
    forall x | Feasible([[-1.0]], [0.0], 1, x) ensures x == [0.0] {
      assert x == [x[0]];
      PinnedPoint(x[0]);
    }
    assert Dot([-price], [0.0], 0) == 0.0;
    assert Dot([-price], [0.0], 1) == 0.0;
  }
}
