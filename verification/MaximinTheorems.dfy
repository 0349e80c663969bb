// The optimizer's program is always solved, and its solution is a maximin split.

module MaximinTheorems {
  import opened Vectors
  import opened Counting
  import opened Iteration
  import opened SimplexTableau
  import opened SimplexRun
  import opened SimplexBland
  import opened Simplex
  import opened SimplexTheorems
  import opened Maximin

  // ---------------------------------------------------------------- returns

  function MinReal(a: real, b: real): real {
    if a < b then a else b
  }

  // The smallest return of a split over the first k + 1 states.
  function MinReturn(matrix: seq<seq<real>>, x: seq<real>, legs: nat, k: nat): real
    requires Rectangular(matrix, legs) && k < |matrix| && legs <= |x|
  {
    var r := Dot(matrix[k], x, legs);
    if k == 0 then r else MinReal(MinReturn(matrix, x, legs, k - 1), r)
  }

  lemma {:induction false} MinReturnIsLeast(matrix: seq<seq<real>>, x: seq<real>, legs: nat, k: nat) returns (j: nat)
    requires Rectangular(matrix, legs) && k < |matrix| && legs <= |x|
    ensures j <= k && MinReturn(matrix, x, legs, k) == Dot(matrix[j], x, legs)
    ensures forall i :: 0 <= i <= k ==> MinReturn(matrix, x, legs, k) <= Dot(matrix[i], x, legs)
  {
    j := k;
    if k > 0 {
      var i := MinReturnIsLeast(matrix, x, legs, k - 1);
      if MinReturn(matrix, x, legs, k - 1) < Dot(matrix[k], x, legs) {
        j := i;
      }
    }
  }

  ghost predicate IsSplit(w: seq<real>, legs: nat) {
    |w| == legs && NonNegative(w) && Sum(w, legs) == 1.0
  }

  // ---------------------------------------------------------------- points of the program

  // A split and what it guarantees, as a point of the program.
  function PointOf(matrix: seq<seq<real>>, legs: nat, w: seq<real>, v: real, n: nat): (z: seq<real>)
    requires Rectangular(matrix, legs) && |w| == legs && n == Variables(legs, |matrix|)
    ensures |z| == n
  {
    seq(n, k requires 0 <= k < n =>
      if k < legs then w[k]
      else if k == legs then v
      else if legs + 2 <= k < legs + 2 + |matrix| then Dot(matrix[k - legs - 2], w, legs) - v
      else 0.0)
  }

  lemma PointOfHolds(matrix: seq<seq<real>>, legs: nat, w: seq<real>, v: real, n: nat)
    requires Rectangular(matrix, legs) && IsSplit(w, legs) && n == Variables(legs, |matrix|)
    requires v >= 0.0 && forall j :: 0 <= j < |matrix| ==> v <= Dot(matrix[j], w, legs)
    ensures Feasible(Program(matrix, legs), Rhs(|matrix|), n, PointOf(matrix, legs, w, v, n))
  {
    var z, states := PointOf(matrix, legs, w, v, n), |matrix|;
    SumAgrees(w, z, legs);
    forall j | 0 <= j < states
      ensures -Dot(matrix[j], z, legs) + z[legs] - z[legs + 1] + z[legs + 2 + j] + Zeros(states + 2)[j] == 0.0
    {
      DotAgrees(matrix[j], matrix[j], w, z, legs);
    }
    forall k | 0 <= k < n ensures z[k] >= 0.0 {
      if legs + 2 <= k < legs + 2 + states {
        assert v <= Dot(matrix[k - legs - 2], w, legs);
      }
    }
    ProgramMeans(matrix, legs, z, n);
  }

  lemma {:induction false} FirstOnly(legs: nat, k: nat)
    requires 0 < k <= legs
    ensures Sum([1.0] + Zeros(legs - 1), k) == 1.0
  {
    if k == 1 {
      assert Sum([1.0] + Zeros(legs - 1), 0) == 0.0;
    } else {
      FirstOnly(legs, k - 1);
    }
  }

  lemma NonNegativeReturn(matrix: seq<seq<real>>, legs: nat, w: seq<real>, j: nat)
    requires Rectangular(matrix, legs) && NonNegativeRows(matrix) && j < |matrix| && |w| == legs && NonNegative(w)
    ensures Dot(matrix[j], w, legs) >= 0.0
  {
    forall k | 0 <= k < legs ensures matrix[j][k] * w[k] >= 0.0 {
      ProductNotNegative(matrix[j][k], w[k]);
    }
    DotNonNegative(matrix[j], w, legs);
  }

  // Everything on the first leg is a point, so the program is feasible.
  lemma AlwaysFeasible(matrix: seq<seq<real>>, legs: nat, n: nat) returns (z: seq<real>)
    requires Rectangular(matrix, legs) && NonNegativeRows(matrix) && legs > 0 && n == Variables(legs, |matrix|)
    ensures Feasible(Program(matrix, legs), Rhs(|matrix|), n, z)
  {
    var w := [1.0] + Zeros(legs - 1);
    FirstOnly(legs, legs);
    forall j | 0 <= j < |matrix| ensures 0.0 <= Dot(matrix[j], w, legs) {
      NonNegativeReturn(matrix, legs, w, j);
    }
    z := PointOf(matrix, legs, w, 0.0, n);
    PointOfHolds(matrix, legs, w, 0.0, n);
  }

  // ---------------------------------------------------------------- artificials vanish

  lemma NoWeight(each: real, sum: real)
    requires each > 0.0 && sum >= 0.0 && each * sum <= 0.0
    ensures sum == 0.0
  {
  }

  lemma ZeroSum(z: seq<real>, m: nat)
    requires |z| == m && NonNegative(z) && Sum(z, m) == 0.0
    ensures forall k :: 0 <= k < m ==> z[k] == 0.0
  {
    SumNonNegative(z, m);
  }

  // A point with its artificials repaired is feasible and costs the same.
  lemma Repairing(matrix: seq<seq<real>>, legs: nat, x: seq<real>, n: nat, extra: seq<real>) returns (y: seq<real>)
    requires Rectangular(matrix, legs) && NonNegativeRows(matrix) && legs > 0 && n == Variables(legs, |matrix|) == |x|
    requires |extra| == |matrix| + 2 && NonNegative(x) && NonNegative(extra) && RowsHold(matrix, legs, x, n, extra)
    ensures Feasible(Program(matrix, legs), Rhs(|matrix|), n, y)
    ensures Dot(Objective(legs, |matrix|), y, n) == Dot(Objective(legs, |matrix|), x, n)
  {
    RepairedHolds(matrix, legs, x, n, extra);
    y := Repaired(matrix, legs, x, n, extra);
    ProgramMeans(matrix, legs, y, n);
    ObjectiveDot(legs, |matrix|, x, n);
    ObjectiveDot(legs, |matrix|, y, n);
  }

  // Whatever the positive penalty, an optimal exact phase two ends with every artificial at 0:
  // its point, repaired, would otherwise be cheaper.
  lemma ArtificialsVanish(matrix: seq<seq<real>>, legs: nat, each: real, fuel: nat, t: Tableau, n: nat, m: nat)
    requires Rectangular(matrix, legs) && NonNegativeRows(matrix) && legs > 0 && each > 0.0
    requires n == Variables(legs, |matrix|) && m == |matrix| + 2 == |Program(matrix, legs)|
    requires PhaseEnd(Start(Program(matrix, legs), Rhs(|matrix|), n), t, Optimal,
                      Costs(Objective(legs, |matrix|), m, each), n + m, 0.0, fuel)
    ensures ArtificialsZero(Basic(t, n + m), n)
  {
    var A, b, c := Program(matrix, legs), Rhs(|matrix|), Objective(legs, |matrix|);
    var z := Basic(t, n + m);
    EndSolves(A, b, n, t, 0.0);
    StartMeans(matrix, legs, z, n, m);
    var x, extra := z[..n], z[n..];
    var y := Repairing(matrix, legs, x, n, extra);
    CheaperRepaired(A, b, c, each, fuel, t, n, m, y);
    NoneIfCheap(each, extra, m, Dot(c, x, n), Dot(c, y, n));
    TailZero(z, n, extra);
  }

  lemma TailZero(z: seq<real>, n: nat, extra: seq<real>)
    requires n <= |z| && extra == z[n..] && forall k :: 0 <= k < |extra| ==> extra[k] == 0.0
    ensures ArtificialsZero(z, n)
  {
    assert forall k :: n <= k < |z| ==> z[k] == extra[k - n];
  }

  lemma NoneIfCheap(each: real, extra: seq<real>, m: nat, cost: real, other: real)
    requires each > 0.0 && |extra| == m && NonNegative(extra) && cost == other
    requires cost + each * Sum(extra, m) <= other
    ensures forall k :: 0 <= k < m ==> extra[k] == 0.0
  {
    SumNonNegative(extra, m);
    NoWeight(each, Sum(extra, m));
    ZeroSum(extra, m);
  }

  // An optimal end costs no more than a feasible point, its artificials' penalty included.
  lemma CheaperRepaired(A: seq<seq<real>>, b: seq<real>, c: seq<real>, each: real, fuel: nat, t: Tableau,
      n: nat, m: nat, y: seq<real>)
    requires |c| == n && |A| == m && Feasible(A, b, n, y)
    requires PhaseEnd(Start(A, b, n), t, Optimal, Costs(c, m, each), n + m, 0.0, fuel)
    ensures Dot(c, Basic(t, n + m)[..n], n) + each * Sum(Basic(t, n + m)[n..], m) <= Dot(c, y, n)
  {
    PenalisedBound(A, b, c, each, fuel, t, n, m, y);
    PenaltyApart(c, m, each, Basic(t, n + m), n, n + m, Dot(c, y, n));
  }

  lemma PenaltyApart(c: seq<real>, m: nat, each: real, z: seq<real>, n: nat, N: nat, bound: real)
    requires |c| == n && |z| == N == n + m && Dot(Costs(c, m, each), z, N) <= bound
    ensures Dot(c, z[..n], n) + each * Sum(z[n..], m) <= bound
  {
    CostsDot(c, m, each, z, m);
    DotAgrees(c, c, z, z[..n], n);
  }

  lemma PenalisedBound(A: seq<seq<real>>, b: seq<real>, c: seq<real>, each: real, fuel: nat, t: Tableau,
      n: nat, m: nat, y: seq<real>)
    requires |c| == n && |A| == m && Feasible(A, b, n, y)
    requires PhaseEnd(Start(A, b, n), t, Optimal, Costs(c, m, each), n + m, 0.0, fuel)
    ensures Dot(Costs(c, m, each), Basic(t, n + m), n + m) <= Dot(c, y, n)
  {
    FeasibleSolvesStart(A, b, n, y);
    OptimalExit(Start(A, b, n), t, Costs(c, m, each), n + m, 0.0, fuel, y + Zeros(m));
    NoSlack(y + Zeros(m), n + m);
    PaddedCost(c, m, each, 0.0, y);
  }

  // ---------------------------------------------------------------- the program is bounded

  lemma {:induction false} DotAtMost(row: seq<real>, x: seq<real>, cap: real, n: nat)
    requires n <= |row| && n <= |x|
    requires forall k :: 0 <= k < n ==> row[k] <= cap && x[k] >= 0.0
    ensures Dot(row, x, n) <= cap * Sum(x, n)
  {
    if n > 0 {
      DotAtMost(row, x, cap, n - 1);
      ProductNotNegative(cap - row[n - 1], x[n - 1]);
      assert row[n - 1] * x[n - 1] <= cap * x[n - 1];
    }
  }

  lemma CapTimes(cap: real, sum: real)
    requires cap >= 0.0 && sum <= 1.0
    ensures cap * sum <= cap
  {
    ProductNotNegative(cap, 1.0 - sum);
  }

  lemma RowBounded(row: seq<real>, x: seq<real>, legs: nat)
    requires |row| == legs <= |x| && NonNegative(row) && NonNegative(x) && Sum(x, legs) <= 1.0
    ensures Dot(row, x, legs) <= Sum(row, legs)
  {
    var cap := Sum(row, legs);
    SumNonNegative(row, legs);
    DotAtMost(row, x, cap, legs);
    CapTimes(cap, Sum(x, legs));
  }

  // No point, artificials or not, guarantees more than the multipliers of the first state add up to.
  lemma ReturnBounded(matrix: seq<seq<real>>, legs: nat, x: seq<real>, n: nat, extra: seq<real>)
    requires Rectangular(matrix, legs) && NonNegativeRows(matrix) && |matrix| > 0 && n == Variables(legs, |matrix|) == |x|
    requires |extra| == |matrix| + 2 && NonNegative(x) && NonNegative(extra) && RowsHold(matrix, legs, x, n, extra)
    ensures x[legs] - x[legs + 1] <= Sum(matrix[0], legs)
  {
    RowBounded(matrix[0], x, legs);
    assert -Dot(matrix[0], x, legs) + x[legs] - x[legs + 1] + x[legs + 2 + 0] + extra[0] == 0.0;
  }

  lemma PenalisedObjective(legs: nat, states: nat, m: nat, each: real, z: seq<real>, n: nat)
    requires n == Variables(legs, states) && |z| == n + m && each >= 0.0 && NonNegative(z)
    ensures Dot(Costs(Objective(legs, states), m, each), z, n + m) >= z[legs + 1] - z[legs]
  {
    var c := Objective(legs, states);
    CostsDot(c, m, each, z, m);
    DotAgrees(c, c, z, z[..n], n);
    ObjectiveDot(legs, states, z[..n], n);
    SumNonNegative(z[n..], m);
    ProductNotNegative(each, Sum(z[n..], m));
  }

  lemma NeverUnbounded(matrix: seq<seq<real>>, legs: nat, each: real, fuel: nat, t: Tableau, n: nat, m: nat)
    requires Rectangular(matrix, legs) && NonNegativeRows(matrix) && |matrix| > 0 && each >= 0.0
    requires n == Variables(legs, |matrix|) && m == |matrix| + 2 == |Program(matrix, legs)|
    ensures !PhaseEnd(Start(Program(matrix, legs), Rhs(|matrix|), n), t, Unbounded,
                      Costs(Objective(legs, |matrix|), m, each), n + m, 0.0, fuel)
  {
    var start, cost := Start(Program(matrix, legs), Rhs(|matrix|), n), Costs(Objective(legs, |matrix|), m, each);
    if PhaseEnd(start, t, Unbounded, cost, n + m, 0.0, fuel) {
      StartCanonical(Program(matrix, legs), Rhs(|matrix|), n);
      var z := UnboundedExit(start, t, cost, n + m, fuel, -Sum(matrix[0], legs));
      StartMeans(matrix, legs, z, n, m);
      ReturnBounded(matrix, legs, z[..n], n, z[n..]);
      PenalisedObjective(legs, |matrix|, m, each, z, n);
    }
  }

  // ---------------------------------------------------------------- the maximin split

  // Settings under which the solver is exact: no tolerance, a penalty, and no iteration limit in the way.
  predicate Exact(s: Settings, n: nat, m: nat) {
    Sensible(s) && s.eps == 0.0 && s.artificialCost > 0.0 && s.maxIterations >= Binomial(n + m, m)
  }

  // The exact solver always finds an optimal point of the program.
  lemma ProgramSolved(matrix: seq<seq<real>>, legs: nat, s: Settings, n: nat, m: nat, y: seq<real>) returns (r: SimplexResult)
    requires Rectangular(matrix, legs) && NonNegativeRows(matrix) && legs > 0 && |matrix| > 0
    requires n == Variables(legs, |matrix|) && m == |matrix| + 2 == |Program(matrix, legs)| && Exact(s, n, m)
    ensures r == Minimize(Objective(legs, |matrix|), Program(matrix, legs), Rhs(|matrix|), s) && r.status == Optimum
    ensures Feasible(Program(matrix, legs), Rhs(|matrix|), n, r.solution)
    ensures Feasible(Program(matrix, legs), Rhs(|matrix|), n, y) ==>
              r.objective <= Dot(Objective(legs, |matrix|), y, n)
    ensures r.objective == Dot(Objective(legs, |matrix|), r.solution, n)
  {
    var A, b, c := Program(matrix, legs), Rhs(|matrix|), Objective(legs, |matrix|);
    assert Width(A, |c|) == n + m;
    var t := ProgramEnds(matrix, legs, s, n, m);
    EndIsReported(A, b, c, s, t);
    r := ResultOf(c, |A|, t);
    EndIsFeasible(A, b, c, t, r);
    if Feasible(A, b, n, y) {
      EndIsCheapest(A, b, c, s.artificialCost, s.maxIterations, t, y);
    }
  }

  // Phase two of the program ends for want of an entering column, with no artificials.
  lemma ProgramEnds(matrix: seq<seq<real>>, legs: nat, s: Settings, n: nat, m: nat) returns (t: Tableau)
    requires Rectangular(matrix, legs) && NonNegativeRows(matrix) && legs > 0 && |matrix| > 0
    requires n == Variables(legs, |matrix|) && m == |matrix| + 2 == |Program(matrix, legs)| && Exact(s, n, m)
    ensures EndsAt(Program(matrix, legs), Rhs(|matrix|), Objective(legs, |matrix|), s, t)
  {
    var A, b, c := Program(matrix, legs), Rhs(|matrix|), Objective(legs, |matrix|);
    var point := AlwaysFeasible(matrix, legs, n);
    assert Width(A, |c|) == n + m;
    ExactPhaseOneStops(A, b, n, s);
    ExactInfeasible(A, b, n, s);
    ExactPhaseTwoStops(c, A, b, s);
    var exit;
    t, exit := PhaseTwoEnds(c, A, b, s);
    NeverUnbounded(matrix, legs, s.artificialCost, s.maxIterations, t, n, m);
    ArtificialsVanish(matrix, legs, s.artificialCost, s.maxIterations, t, n, m);
  }

  // The exact solver ends phase two at t, without artificials.
  ghost predicate EndsAt(A: seq<seq<real>>, b: seq<real>, c: seq<real>, s: Settings, t: Tableau) {
    && |A| > 0 && Sensible(s) && s.eps == 0.0 && Handover(A, b, |c|, s).Clear? && PhaseTwo(c, A, b, s) == (t, Optimal)
    && PhaseEnd(Start(A, b, |c|), t, Optimal, Costs(c, |A|, s.artificialCost), Width(A, |c|), 0.0, s.maxIterations)
    && ArtificialsZero(Basic(t, Width(A, |c|)), |c|)
  }

  lemma EndIsReported(A: seq<seq<real>>, b: seq<real>, c: seq<real>, s: Settings, t: Tableau)
    requires EndsAt(A, b, c, s, t)
    ensures Minimize(c, A, b, s) == ResultOf(c, |A|, t)
  {
  }

  lemma EndIsFeasible(A: seq<seq<real>>, b: seq<real>, c: seq<real>, t: Tableau, r: SimplexResult)
    requires Same(Start(A, b, |c|), t, Width(A, |c|), 0.0) && ArtificialsZero(Basic(t, Width(A, |c|)), |c|)
    requires r == ResultOf(c, |A|, t)
    ensures Feasible(A, b, |c|, r.solution)
  {
    EndSolves(A, b, |c|, t, 0.0);
    EndSolvesIff(A, b, |c|, t, 0.0);
  }

  lemma EndIsCheapest(A: seq<seq<real>>, b: seq<real>, c: seq<real>, each: real, fuel: nat, t: Tableau, y: seq<real>)
    requires PhaseEnd(Start(A, b, |c|), t, Optimal, Costs(c, |A|, each), Width(A, |c|), 0.0, fuel)
    requires ArtificialsZero(Basic(t, Width(A, |c|)), |c|) && Feasible(A, b, |c|, y)
    ensures ResultOf(c, |A|, t).objective <= Dot(c, y, |c|)
  {
    FeasibleEnd(c, A, b, each, 0.0, fuel, t, y);
    NoSlack(y, |c|);
  }

  // No other split of the same total has a larger smallest return.
  lemma MaximinSplit(matrix: seq<seq<real>>, legs: nat, s: Settings, n: nat, m: nat, w: seq<real>) returns (r: SimplexResult)
    requires Rectangular(matrix, legs) && NonNegativeRows(matrix) && legs > 0 && |matrix| > 0
    requires n == Variables(legs, |matrix|) && m == |matrix| + 2 == |Program(matrix, legs)| && Exact(s, n, m)
    requires IsSplit(w, legs)
    ensures r == Minimize(Objective(legs, |matrix|), Program(matrix, legs), Rhs(|matrix|), s)
    ensures r.status == Optimum && |r.solution| == n && IsSplit(r.solution[..legs], legs)
    ensures MinReturn(matrix, w, legs, |matrix| - 1) <= MinReturn(matrix, r.solution[..legs], legs, |matrix| - 1)
  {
    var states := |matrix|;
    var v := MinReturn(matrix, w, legs, states - 1);
    var j := MinReturnIsLeast(matrix, w, legs, states - 1);
    NonNegativeReturn(matrix, legs, w, j);
    var y := PointOf(matrix, legs, w, v, n);
    PointOfHolds(matrix, legs, w, v, n);
    r := ProgramSolved(matrix, legs, s, n, m, y);
    ObjectiveDot(legs, states, y, n);
    ObjectiveDot(legs, states, r.solution, n);
    ProgramMeans(matrix, legs, r.solution, n);
    SplitReturn(matrix, legs, r.solution, n);
  }

  // A point of the program is a split that guarantees at least its z+ - z-.
  lemma SplitReturn(matrix: seq<seq<real>>, legs: nat, z: seq<real>, n: nat)
    requires Rectangular(matrix, legs) && |matrix| > 0 && n == Variables(legs, |matrix|) == |z|
    requires NonNegative(z) && RowsHold(matrix, legs, z, n, Zeros(|matrix| + 2))
    ensures IsSplit(z[..legs], legs)
    ensures z[legs] - z[legs + 1] <= MinReturn(matrix, z[..legs], legs, |matrix| - 1)
  {
    var x := z[..legs];
    SumAgrees(z, x, legs);
    var j := MinReturnIsLeast(matrix, x, legs, |matrix| - 1);
    DotAgrees(matrix[j], matrix[j], z, x, legs);
    assert -Dot(matrix[j], z, legs) + z[legs] - z[legs + 1] + z[legs + 2 + j] + Zeros(|matrix| + 2)[j] == 0.0;
  }
}
