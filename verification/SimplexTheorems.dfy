// What the solver's verdicts mean for `minimize c·x subject to A x = b, x >= 0`.

module SimplexTheorems {
  import opened Vectors
  import opened Counting
  import opened Iteration
  import opened SimplexTableau
  import opened SimplexRun
  import opened SimplexBland
  import opened Simplex

  ghost predicate SolvesEquations(A: seq<seq<real>>, b: seq<real>, n: nat, x: seq<real>)
    requires |x| == n
  {
    forall i :: 0 <= i < |A| ==> Dot(RowOf(A, i, n), x, n) == At(b, i)
  }

  // ---------------------------------------------------------------- any tolerance

  // The tableau behind a reported optimum.
  lemma OptimumFrom(c: seq<real>, A: seq<seq<real>>, b: seq<real>, s: Settings) returns (t: Tableau, exit: Exit)
    requires Sensible(s) && |A| > 0 && Minimize(c, A, b, s).status == Optimum
    ensures PhaseEnd(Start(A, b, |c|), t, exit, Costs(c, |A|, s.artificialCost), Width(A, |c|), s.eps, s.maxIterations)
    ensures Handover(A, b, |c|, s).Clear? && (t, exit) == PhaseTwo(c, A, b, s) && exit != Unbounded
    ensures Minimize(c, A, b, s) == ResultOf(c, |A|, t)
  {
    t, exit := PhaseTwoEnds(c, A, b, s);
  }

  lemma EndSolves(A: seq<seq<real>>, b: seq<real>, n: nat, t: Tableau, eps: Tolerance)
    requires Same(Start(A, b, n), t, Width(A, n), eps)
    ensures Solves(Start(A, b, n), Basic(t, Width(A, n)), Width(A, n))
    ensures eps == 0.0 ==> NonNegative(Basic(t, Width(A, n)))
  {
    BasicSolves(t, Width(A, n));
    StartCanonical(A, b, n);
  }

  lemma EndSolvesIff(A: seq<seq<real>>, b: seq<real>, n: nat, t: Tableau, eps: Tolerance)
    requires Same(Start(A, b, n), t, Width(A, n), eps)
    ensures SolvesEquations(A, b, n, Basic(t, Width(A, n))[..n]) <==> ArtificialsZero(Basic(t, Width(A, n)), n)
  {
    EndSolves(A, b, n, t, eps);
    SolutionIffArtificialsZero(A, b, n, Basic(t, Width(A, n)));
  }

  // Whatever stopped phase two, the reported solution solves A x = b exactly when every
  // artificial ends at 0.
  lemma SolvesIffArtificialsZero(c: seq<real>, A: seq<seq<real>>, b: seq<real>, s: Settings)
    returns (t: Tableau, exit: Exit)
    requires Sensible(s) && |A| > 0 && Minimize(c, A, b, s).status == Optimum
    ensures PhaseEnd(Start(A, b, |c|), t, exit, Costs(c, |A|, s.artificialCost), Width(A, |c|), s.eps, s.maxIterations)
    ensures Handover(A, b, |c|, s).Clear? && (t, exit) == PhaseTwo(c, A, b, s) && exit != Unbounded
    ensures Minimize(c, A, b, s) == ResultOf(c, |A|, t)
    ensures SolvesEquations(A, b, |c|, Minimize(c, A, b, s).solution) <==> ArtificialsZero(Basic(t, Width(A, |c|)), |c|)
  {
    t, exit := OptimumFrom(c, A, b, s);
    EndSolvesIff(A, b, |c|, t, s.eps);
  }

  // x with every artificial at 0 solves the starting system.
  ghost predicate Admits(start: Tableau, n: nat, m: nat, x: seq<real>)
    requires Shaped(start, n + m)
  {
    |x| == n && NonNegative(x) && Solves(start, x + Zeros(m), n + m)
  }

  // An optimal end of a phase with the artificials at 0: no admitted x is cheaper by more
  // than its slack.
  lemma OptimalEnd(start: Tableau, end: Tableau, c: seq<real>, m: nat, each: real, eps: Tolerance, fuel: nat,
                   x: seq<real>)
    requires Shaped(start, |c| + m) && PhaseEnd(start, end, Optimal, Costs(c, m, each), |c| + m, eps, fuel)
    requires ArtificialsZero(Basic(end, |c| + m), |c|) && Admits(start, |c|, m, x)
    ensures ResultOf(c, m, end).objective <= Dot(c, x, |c|) + Slack(eps, x, |c|)
  {
    OptimalExit(start, end, Costs(c, m, each), |c| + m, eps, fuel, x + Zeros(m));
    UnpaddedBound(c, m, each, eps, Basic(end, |c| + m), x);
  }

  lemma UnpaddedBound(c: seq<real>, m: nat, each: real, eps: real, z: seq<real>, x: seq<real>)
    requires |z| == |c| + m && ArtificialsZero(z, |c|) && |x| == |c|
    requires Dot(Costs(c, m, each), z, |c| + m)
             <= Dot(Costs(c, m, each), x + Zeros(m), |c| + m) + Slack(eps, x + Zeros(m), |c| + m)
    ensures Dot(c, z[..|c|], |c|) <= Dot(c, x, |c|) + Slack(eps, x, |c|)
  {
    PaddedCost(c, m, each, eps, x);
    UnpaddedCost(c, m, each, z);
  }

  // The optimal verdict, whatever the tolerance: when phase two stopped for want of an
  // entering column and the solution solves A x = b, no feasible x is cheaper by more than
  // its slack.
  lemma OptimalVerdict(c: seq<real>, A: seq<seq<real>>, b: seq<real>, s: Settings, x: seq<real>)
    returns (r: SimplexResult, exit: Exit)
    requires Sensible(s) && |A| > 0 && Minimize(c, A, b, s).status == Optimum && Feasible(A, b, |c|, x)
    ensures r == Minimize(c, A, b, s) && |r.solution| == |c| && r.objective == Dot(c, r.solution, |c|)
    ensures Handover(A, b, |c|, s).Clear? && exit == PhaseTwo(c, A, b, s).1
    ensures exit == Optimal && SolvesEquations(A, b, |c|, r.solution) ==>
              r.objective <= Dot(c, x, |c|) + Slack(s.eps, x, |c|)
  {
    var t;
    t, exit := SolvesIffArtificialsZero(c, A, b, s);
    r := ResultOf(c, |A|, t);
    if exit == Optimal && SolvesEquations(A, b, |c|, r.solution) {
      FeasibleEnd(c, A, b, s.artificialCost, s.eps, s.maxIterations, t, x);
    }
  }

  lemma FeasibleEnd(c: seq<real>, A: seq<seq<real>>, b: seq<real>, each: real, eps: Tolerance, fuel: nat,
                    t: Tableau, x: seq<real>)
    requires PhaseEnd(Start(A, b, |c|), t, Optimal, Costs(c, |A|, each), Width(A, |c|), eps, fuel)
    requires ArtificialsZero(Basic(t, Width(A, |c|)), |c|) && Feasible(A, b, |c|, x)
    ensures ResultOf(c, |A|, t).objective <= Dot(c, x, |c|) + Slack(eps, x, |c|)
  {
    FeasibleSolvesStart(A, b, |c|, x);
    OptimalEnd(Start(A, b, |c|), t, c, |A|, each, eps, fuel, x);
  }

  // The sum of artificials phase one ends at never exceeds the slack of a feasible point, so a
  // sum above the threshold rules out every feasible x whose slack is at most the threshold.
  lemma PhaseOneBound(start: Tableau, end: Tableau, n: nat, m: nat, eps: Tolerance, fuel: nat, x: seq<real>)
    requires Shaped(start, n + m) && PhaseEnd(start, end, Optimal, Costs(Zeros(n), m, 1.0), n + m, eps, fuel)
    requires Admits(start, n, m, x)
    ensures Value(end, Costs(Zeros(n), m, 1.0), n + m) <= Slack(eps, x, n)
  {
    var N, cost, xs := n + m, Costs(Zeros(n), m, 1.0), x + Zeros(m);
    OptimalExit(start, end, cost, N, eps, fuel, xs);
    BasicValue(end, cost, N);
    PaddedCost(Zeros(n), m, 1.0, eps, x);
    DotZeros(Zeros(n), x, n);
  }

  // ---------------------------------------------------------------- tolerance 0

  // Phase one cannot run off: its objective is never negative.
  lemma ExactPhaseOneBounded(A: seq<seq<real>>, b: seq<real>, n: nat, s: Settings)
    requires Sensible(s) && s.eps == 0.0
    ensures PhaseOne(A, b, n, s).1 != Unbounded
  {
    var t, exit := PhaseOneEnds(A, b, n, s);
    if exit == Unbounded {
      var cost := Costs(Zeros(n), |A|, 1.0);
      StartCanonical(A, b, n);
      var z := UnboundedExit(Start(A, b, n), t, cost, Width(A, n), s.maxIterations, 0.0);
      assert forall j :: 0 <= j < Width(A, n) ==> cost[j] >= 0.0 && z[j] >= 0.0;
      DotNonNegative(cost, z, Width(A, n));
    }
  }

  // The row's basic column is structural, or an artificial at 0.
  predicate Cleared(t: Tableau, n: nat, m: nat, row: nat)
    requires Shaped(t, n + m) && row < |t.rows|
  {
    t.basis[row] < n || t.rows[row][n + m] == 0.0
  }

  lemma DriveRowExact(t: Tableau, n: nat, m: nat, row: nat)
    requires Canonical(t, n + m) && |t.rows| == m && row < m
    ensures DriveRow(t, n, m, 0.0, row).Stuck? <==> !Cleared(t, n, m, row)
  {
  }

  lemma DriveRowElsewhere(t: Tableau, n: nat, m: nat, row: nat) returns (t': Tableau)
    requires Canonical(t, n + m) && |t.rows| == m && row < m && Cleared(t, n, m, row)
    ensures DriveRow(t, n, m, 0.0, row) == Clear(t') && Canonical(t', n + m) && |t'.rows| == m
    ensures forall i :: row < i < m ==> (Cleared(t', n, m, i) <==> Cleared(t, n, m, i))
  {
    var j := Replacement(t, n, m, 0.0, row, 0);
    if t.basis[row] >= n && j < n {
      t' := Pivot(t, row, j, n + m);
      PivotKeepsCanonical(t, row, j, n + m);
      ZeroRowPivot(t, row, j, n + m);
      forall i | row < i < m ensures Cleared(t', n, m, i) <==> Cleared(t, n, m, i) {
        assert RhsOf(t', n + m)[i] == RhsOf(t, n + m)[i];
      }
    } else {
      t' := t;
    }
  }

  // Driving out fails exactly when some artificial is basic at a value other than 0.
  lemma {:induction false} DriveOutExact(t: Tableau, n: nat, m: nat, row: nat)
    requires Canonical(t, n + m) && |t.rows| == m && row <= m
    ensures DriveOut(t, n, m, 0.0, row).Clear? <==> forall i :: row <= i < m ==> Cleared(t, n, m, i)
    decreases m - row
  {
    if row < m {
      if Cleared(t, n, m, row) {
        var t' := DriveRowElsewhere(t, n, m, row);
        DriveOutExact(t', n, m, row + 1);
      } else {
        DriveRowExact(t, n, m, row);
      }
    }
  }

  // The value of phase one is the sum of the basic artificials, each of them non-negative.
  lemma {:induction false} ArtificialSum(t: Tableau, n: nat, m: nat, k: nat)
    requires Canonical(t, n + m) && RhsNonNegative(t, n + m) && |t.rows| == m && k <= m
    ensures Priced(t, Costs(Zeros(n), m, 1.0), n + m, n + m, k) >= 0.0
    ensures Priced(t, Costs(Zeros(n), m, 1.0), n + m, n + m, k) == 0.0 <==>
              forall i :: 0 <= i < k ==> Cleared(t, n, m, i)
  {
    if k > 0 {
      ArtificialSum(t, n, m, k - 1);
      var cost := Costs(Zeros(n), m, 1.0)[t.basis[k - 1]];
      assert cost == if t.basis[k - 1] < n then 0.0 else 1.0;
      assert Cleared(t, n, m, k - 1) <==> cost * t.rows[k - 1][n + m] == 0.0;
    }
  }

  // With tolerance 0 the handover fails exactly when phase one could not bring the
  // artificials to 0, whatever the threshold on their sum.
  lemma ExactHandover(A: seq<seq<real>>, b: seq<real>, n: nat, s: Settings) returns (t: Tableau, exit: Exit)
    requires Sensible(s) && s.eps == 0.0
    ensures (t, exit) == PhaseOne(A, b, n, s) && exit != Unbounded
    ensures PhaseEnd(Start(A, b, n), t, exit, Costs(Zeros(n), |A|, 1.0), Width(A, n), 0.0, s.maxIterations) && |t.rows| == |A|
    ensures Handover(A, b, n, s).Clear? <==> forall i :: 0 <= i < |A| ==> Cleared(t, n, |A|, i)
    ensures Handover(A, b, n, s).Clear? <==> Value(t, Costs(Zeros(n), |A|, 1.0), Width(A, n)) <= 0.0
  {
    t, exit := PhaseOneEnds(A, b, n, s);
    StartCanonical(A, b, n);
    ExactPhaseOneBounded(A, b, n, s);
    ArtificialSum(t, n, |A|, |A|);
    DriveOutExact(t, n, |A|, 0);
  }

  // Artificials at 0 leave a feasible point.
  lemma ClearedGivesFeasible(A: seq<seq<real>>, b: seq<real>, n: nat, t: Tableau) returns (x: seq<real>)
    requires Same(Start(A, b, n), t, Width(A, n), 0.0) && forall i :: 0 <= i < |A| ==> Cleared(t, n, |A|, i)
    ensures Feasible(A, b, n, x)
  {
    var N := Width(A, n);
    EndSolves(A, b, n, t, 0.0);
    BasicSolves(t, N);
    var z := Basic(t, N);
    forall j | n <= j < N ensures z[j] == 0.0 {
      if j in t.basis {
        var i :| 0 <= i < |t.basis| && t.basis[i] == j;
        assert Cleared(t, n, |A|, i);
      }
    }
    SolutionIffArtificialsZero(A, b, n, z);
    x := z[..n];
  }

  // The infeasible verdict, exactly: with tolerance 0 and phase one not cut short it is given
  // when and only when nothing is feasible.
  lemma ExactInfeasible(A: seq<seq<real>>, b: seq<real>, n: nat, s: Settings)
    requires Sensible(s) && s.eps == 0.0 && PhaseOne(A, b, n, s).1 != Capped
    ensures Handover(A, b, n, s).Stuck? <==> forall x :: !Feasible(A, b, n, x)
  {
    var t, exit := ExactHandover(A, b, n, s);
    if Handover(A, b, n, s).Clear? {
      var x := ClearedGivesFeasible(A, b, n, t);
    } else {
      forall x ensures !Feasible(A, b, n, x) {
        if Feasible(A, b, n, x) {
          FeasibleSolvesStart(A, b, n, x);
          PhaseOneBound(Start(A, b, n), t, n, |A|, 0.0, s.maxIterations, x);
          NoSlack(x, n);
        }
      }
    }
  }

  // With as many iterations as there are bases, neither phase is cut short.
  lemma ExactPhaseOneStops(A: seq<seq<real>>, b: seq<real>, n: nat, s: Settings)
    requires Sensible(s) && s.eps == 0.0 && s.maxIterations >= Binomial(Width(A, n), |A|)
    ensures PhaseOne(A, b, n, s).1 == Optimal
  {
    var _, exit := PhaseOneEnds(A, b, n, s);
    StartCanonical(A, b, n);
    ExactPhaseOneBounded(A, b, n, s);
  }

  lemma ExactPhaseTwoStops(c: seq<real>, A: seq<seq<real>>, b: seq<real>, s: Settings)
    requires Sensible(s) && s.eps == 0.0 && s.maxIterations >= Binomial(Width(A, |c|), |A|)
    requires Handover(A, b, |c|, s).Clear?
    ensures PhaseTwo(c, A, b, s).1 != Capped
  {
    var _, exit := PhaseTwoEnds(c, A, b, s);
    StartCanonical(A, b, |c|);
  }

  // The exact solver, run without an iteration limit in its way: it reports infeasibility
  // exactly when there is no feasible point; an optimum it reports is non-negative; and if
  // that optimum solves A x = b, no feasible x is cheaper.
  lemma ExactSolver(c: seq<real>, A: seq<seq<real>>, b: seq<real>, s: Settings, x: seq<real>) returns (r: SimplexResult)
    requires Sensible(s) && s.eps == 0.0 && |A| > 0 && s.maxIterations >= Binomial(Width(A, |c|), |A|)
    ensures r == Minimize(c, A, b, s)
    ensures r.status == Infeasible <==> forall y :: !Feasible(A, b, |c|, y)
    ensures r.status == Optimum ==> |r.solution| == |c| && NonNegative(r.solution)
    ensures r.status == Optimum && SolvesEquations(A, b, |c|, r.solution) && Feasible(A, b, |c|, x) ==>
              r.objective <= Dot(c, x, |c|)
  {
    ExactPhaseOneStops(A, b, |c|, s);
    ExactInfeasible(A, b, |c|, s);
    if Minimize(c, A, b, s).status == Optimum {
      ExactPhaseTwoStops(c, A, b, s);
      r := ExactOptimum(c, A, b, s, x);
    } else {
      r := Minimize(c, A, b, s);
    }
  }

  lemma ExactOptimum(c: seq<real>, A: seq<seq<real>>, b: seq<real>, s: Settings, x: seq<real>) returns (r: SimplexResult)
    requires Sensible(s) && s.eps == 0.0 && |A| > 0 && Minimize(c, A, b, s).status == Optimum
    requires Handover(A, b, |c|, s).Clear? ==> PhaseTwo(c, A, b, s).1 != Capped
    ensures r == Minimize(c, A, b, s) && |r.solution| == |c| && NonNegative(r.solution)
    ensures SolvesEquations(A, b, |c|, r.solution) && Feasible(A, b, |c|, x) ==> r.objective <= Dot(c, x, |c|)
  {
    var t, exit := SolvesIffArtificialsZero(c, A, b, s);
    r := ResultOf(c, |A|, t);
    EndReports(c, A, b, t, s.artificialCost, s.maxIterations, exit, x, r);
  }

  lemma EndReports(c: seq<real>, A: seq<seq<real>>, b: seq<real>, t: Tableau, each: real, fuel: nat, exit: Exit, x: seq<real>,
      r: SimplexResult)
    requires |A| > 0 && PhaseEnd(Start(A, b, |c|), t, exit, Costs(c, |A|, each), Width(A, |c|), 0.0, fuel)
    requires exit == Optimal && r == ResultOf(c, |A|, t)
    ensures |r.solution| == |c| && NonNegative(r.solution)
    ensures SolvesEquations(A, b, |c|, r.solution) && Feasible(A, b, |c|, x) ==> r.objective <= Dot(c, x, |c|)
  {
    EndSolves(A, b, |c|, t, 0.0);
    if SolvesEquations(A, b, |c|, r.solution) && Feasible(A, b, |c|, x) {
      ReportIsCheapest(c, A, b, t, each, fuel, x, r);
    }
  }

  lemma ReportIsCheapest(c: seq<real>, A: seq<seq<real>>, b: seq<real>, t: Tableau, each: real, fuel: nat, x: seq<real>,
      r: SimplexResult)
    requires PhaseEnd(Start(A, b, |c|), t, Optimal, Costs(c, |A|, each), Width(A, |c|), 0.0, fuel) && r == ResultOf(c, |A|, t)
    requires SolvesEquations(A, b, |c|, r.solution) && Feasible(A, b, |c|, x)
    ensures r.objective <= Dot(c, x, |c|)
  {
    EndSolvesIff(A, b, |c|, t, 0.0);
    FeasibleEnd(c, A, b, each, 0.0, fuel, t, x);
    NoSlack(x, |c|);
  }
}
