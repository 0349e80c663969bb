// The pivoting rule of the solver and whole runs of it, as functions on tableaux.

module SimplexRun {
  import opened Vectors
  import opened SimplexTableau
  import opened Iteration

  type Tolerance = eps: real | eps >= 0.0 witness 0.0

  function Abs(x: real): real {
    if x < 0.0 then -x else x
  }

  // The lowest column from `from` on whose reduced cost is below -eps; n when there is none.
  function Entering(t: Tableau, cost: seq<real>, n: nat, eps: Tolerance, from: nat): (e: nat)
    requires Shaped(t, n) && |cost| == n && from <= n
    ensures from <= e <= n
    ensures e < n ==> Reduced(t, cost, n, e) < 0.0 - eps
    ensures forall j :: from <= j < e ==> Reduced(t, cost, n, j) >= 0.0 - eps
    decreases n - from
  {
    if from == n then n
    else if Reduced(t, cost, n, from) < 0.0 - eps then from
    else Entering(t, cost, n, eps, from + 1)
  }

  datatype Leaving = NoRow | Row(row: nat, ratio: real)

  // A smaller ratio, or one that ties within eps and has the lower basic column.
  predicate Beats(ratio: real, column: nat, best: real, bestColumn: nat, eps: Tolerance) {
    ratio < best - eps || (Abs(ratio - best) <= eps && column < bestColumn)
  }

  // The tolerant ratio test over the first k rows.
  function RatioTest(t: Tableau, e: nat, n: nat, eps: Tolerance, k: nat): (leave: Leaving)
    requires Shaped(t, n) && e < n && k <= |t.rows|
    ensures leave.Row? ==> leave.row < k && t.rows[leave.row][e] > eps
    ensures leave.Row? ==> leave.ratio == t.rows[leave.row][n] / t.rows[leave.row][e]
    ensures leave.NoRow? <==> forall i :: 0 <= i < k ==> t.rows[i][e] <= eps
  {
    if k == 0 then NoRow
    else
      var best := RatioTest(t, e, n, eps, k - 1);
      var coefficient := t.rows[k - 1][e];
      if coefficient <= eps then best
      else
        var ratio := t.rows[k - 1][n] / coefficient;
        if best.NoRow? || Beats(ratio, t.basis[k - 1], best.ratio, t.basis[best.row], eps) then Row(k - 1, ratio)
        else best
  }

  datatype Move = Halt(exit: Exit) | Swap(enter: nat, row: nat)

  // What the solver does next: stop, or exchange the basic column of `row` for `enter`.
  function Choose(t: Tableau, cost: seq<real>, n: nat, eps: Tolerance): (move: Move)
    requires Shaped(t, n) && |cost| == n
    ensures move.Swap? ==> move.enter < n && move.row < |t.rows| && t.rows[move.row][move.enter] > eps
    ensures move.Swap? ==> Reduced(t, cost, n, move.enter) < 0.0 - eps
    ensures move.Halt? ==> move.exit != Capped
  {
    var e := Entering(t, cost, n, eps, 0);
    if e == n then Halt(Optimal)
    else
      match RatioTest(t, e, n, eps, |t.rows|)
      case NoRow => Halt(Unbounded)
      case Row(row, _) => Swap(e, row)
  }

  // One turn of the pivoting loop.
  function Turn(t: Tableau, cost: seq<real>, n: nat, eps: Tolerance): Outcome<Tableau> {
    if Shaped(t, n) && |cost| == n then
      match Choose(t, cost, n, eps)
      case Halt(exit) => Stop(exit)
      case Swap(e, row) => Next(Pivot(t, row, e, n))
    else Stop(Optimal)
  }

  function Turns(cost: seq<real>, n: nat, eps: Tolerance): Tableau -> Outcome<Tableau> {
    t => Turn(t, cost, n, eps)
  }

  // One phase: pivot until no column enters, no row leaves, or `fuel` pivots are spent.
  function Run(t: Tableau, cost: seq<real>, n: nat, eps: Tolerance, fuel: nat): (Tableau, Exit) {
    Iterate(Turns(cost, n, eps), t, fuel)
  }

  // ---------------------------------------------------------------- one step

  lemma EnteringNotBasic(t: Tableau, cost: seq<real>, n: nat, e: nat)
    requires Canonical(t, n) && |cost| == n && e < n && Reduced(t, cost, n, e) < 0.0
    ensures e !in t.basis
  {
    if e in t.basis {
      ReducedBasicZero(t, cost, n, e);
    }
  }

  lemma PivotKeeps(t: Tableau, r: nat, e: nat, n: nat)
    requires Canonical(t, n) && r < |t.rows| && e < n && t.rows[r][e] != 0.0
    ensures Canonical(Pivot(t, r, e, n), n)
    ensures forall x :: Solves(Pivot(t, r, e, n), x, n) <==> Solves(t, x, n)
  {
    PivotKeepsCanonical(t, r, e, n);
    forall x ensures Solves(Pivot(t, r, e, n), x, n) <==> Solves(t, x, n) {
      PivotPreservesSolutions(t, r, e, n, x);
    }
  }

  // With tolerance 0 the ratio test finds the smallest ratio, ties to the lowest basic column.
  lemma {:induction false} ExactRatioTest(t: Tableau, e: nat, n: nat, k: nat)
    requires Shaped(t, n) && e < n && k <= |t.rows|
    ensures var leave := RatioTest(t, e, n, 0.0, k);
            leave.Row? ==>
              forall i :: 0 <= i < k && t.rows[i][e] > 0.0 ==>
                            var ratio := t.rows[i][n] / t.rows[i][e];
                            leave.ratio < ratio || (leave.ratio == ratio && t.basis[leave.row] <= t.basis[i])
  {
    if k > 0 {
      ExactRatioTest(t, e, n, k - 1);
    }
  }

  lemma ExactPivotKeepsRhs(t: Tableau, r: nat, e: nat, n: nat)
    requires Shaped(t, n) && RhsNonNegative(t, n) && e < n && r < |t.rows| && t.rows[r][e] > 0.0
    requires forall i :: 0 <= i < |t.rows| && t.rows[i][e] > 0.0 ==>
                           t.rows[r][n] / t.rows[r][e] <= t.rows[i][n] / t.rows[i][e]
    ensures RhsNonNegative(Pivot(t, r, e, n), n)
  {
    var t' := Pivot(t, r, e, n);
    var ratio := t.rows[r][n] / t.rows[r][e];
    assert ratio >= 0.0;
    forall i | 0 <= i < |t.rows| ensures t'.rows[i][n] >= 0.0 {
      if i != r {
        var a := t.rows[i][e];
        assert t'.rows[i][n] == t.rows[i][n] + -a * ratio;
        if a > 0.0 {
          assert t.rows[i][n] / a >= ratio;
          assert (t.rows[i][n] / a) * a == t.rows[i][n];
          assert ((t.rows[i][n] / a) - ratio) * a >= 0.0;
        } else {
          assert -a * ratio >= 0.0;
        }
      }
    }
  }

  // The row of an exact move has the smallest ratio, ties to the lowest basic column.
  lemma ExactMove(t: Tableau, cost: seq<real>, n: nat)
    requires Shaped(t, n) && |cost| == n && Choose(t, cost, n, 0.0).Swap?
    ensures var Swap(e, r) := Choose(t, cost, n, 0.0);
            forall i :: 0 <= i < |t.rows| && t.rows[i][e] > 0.0 ==>
                          var (best, ratio) := (t.rows[r][n] / t.rows[r][e], t.rows[i][n] / t.rows[i][e]);
                          best < ratio || (best == ratio && t.basis[r] <= t.basis[i])
    ensures forall j :: 0 <= j < Choose(t, cost, n, 0.0).enter ==> Reduced(t, cost, n, j) >= 0.0
  {
    ExactRatioTest(t, Choose(t, cost, n, 0.0).enter, n, |t.rows|);
  }

  lemma ExactMoveKeepsRhs(t: Tableau, cost: seq<real>, n: nat)
    requires Canonical(t, n) && RhsNonNegative(t, n) && |cost| == n && Choose(t, cost, n, 0.0).Swap?
    ensures var Swap(e, r) := Choose(t, cost, n, 0.0); RhsNonNegative(Pivot(t, r, e, n), n)
  {
    var Swap(e, r) := Choose(t, cost, n, 0.0);
    ExactMove(t, cost, n);
    ExactPivotKeepsRhs(t, r, e, n);
  }

  // Walking to the ratio of row r empties the column that leaves with it.
  lemma PivotMoves(t: Tableau, r: nat, e: nat, n: nat)
    requires Canonical(t, n) && r < |t.rows| && e < n && e !in t.basis && t.rows[r][e] != 0.0
    ensures var t' := Pivot(t, r, e, n);
            && Canonical(t', n)
            && Basic(t', n) == AddScaled(Basic(t, n), t.rows[r][n] / t.rows[r][e], Direction(t, e, n))
  {
    var ratio := t.rows[r][n] / t.rows[r][e];
    var t' := Pivot(t, r, e, n);
    PivotKeepsCanonical(t, r, e, n);
    AlongDirection(t, Zeros(n), e, n, ratio);
    DirectionAt(t, e, n);
    BasicSolves(t, n);
    var x, d := Basic(t, n), Direction(t, e, n);
    var y := AddScaled(x, ratio, d);
    PivotPreservesSolutions(t, r, e, n, y);
    forall j | 0 <= j < n && j !in t'.basis ensures y[j] == 0.0 {
      LeavesEmpty(t, r, e, n, j);
    }
    BasicUnique(t', y, n);
  }

  lemma LeavesEmpty(t: Tableau, r: nat, e: nat, n: nat, j: nat)
    requires Canonical(t, n) && r < |t.rows| && e < n && e !in t.basis && t.rows[r][e] != 0.0
    requires j < n && j !in t.basis[r := e]
    ensures Basic(t, n)[j] + (t.rows[r][n] / t.rows[r][e]) * Direction(t, e, n)[j] == 0.0
  {
    BasicSolves(t, n);
    assert t.basis[r := e][r] == e;
    if j in t.basis {
      OnlyLeaves(t.basis, r, e, j);
      assert Direction(t, e, n)[j] == -t.rows[r][e] by {
        DirectionAt(t, e, n);
      }
      RatioTimes(t.rows[r][n], t.rows[r][e]);
    } else {
      assert Direction(t, e, n)[j] == 0.0 by {
        DirectionAt(t, e, n);
      }
    }
  }

  lemma OnlyLeaves(basis: seq<nat>, r: nat, e: nat, j: nat)
    requires r < |basis| && j in basis && j !in basis[r := e]
    ensures basis[r] == j
  {
    var i :| 0 <= i < |basis| && basis[i] == j;
    var after := basis[r := e];
    assert after[i] == if i == r then e else j;
  }

  lemma RatioTimes(u: real, a: real)
    requires a != 0.0
    ensures (u / a) * a == u && (u / a) * -a == -u
  {
  }

  // A pivot walks from one basic solution to the next along the entering direction, by
  // the ratio of the leaving row; the objective moves by that ratio times the reduced cost.
  lemma PivotValue(t: Tableau, cost: seq<real>, r: nat, e: nat, n: nat)
    requires Canonical(t, n) && |cost| == n
    requires r < |t.rows| && e < n && e !in t.basis && t.rows[r][e] != 0.0
    ensures Canonical(Pivot(t, r, e, n), n)
    ensures Value(Pivot(t, r, e, n), cost, n)
            == Value(t, cost, n) + (t.rows[r][n] / t.rows[r][e]) * Reduced(t, cost, n, e)
  {
    PivotMoves(t, r, e, n);
    AlongDirection(t, cost, e, n, t.rows[r][n] / t.rows[r][e]);
    BasicValue(Pivot(t, r, e, n), cost, n);
  }

  // ---------------------------------------------------------------- whole runs

  // What a phase never changes: the shape, the unit columns, the solutions, and, with
  // tolerance 0, non-negative right-hand sides.
  ghost predicate Same(start: Tableau, t: Tableau, n: nat, eps: Tolerance)
    requires Shaped(start, n)
  {
    && Canonical(t, n) && |t.rows| == |start.rows|
    && (forall x :: Solves(t, x, n) <==> Solves(start, x, n))
    && (eps == 0.0 && RhsNonNegative(start, n) ==> RhsNonNegative(t, n))
  }

  lemma TurnKeeps(start: Tableau, t: Tableau, cost: seq<real>, n: nat, eps: Tolerance)
    requires Shaped(start, n) && |cost| == n && Same(start, t, n, eps) && Turn(t, cost, n, eps).Next?
    ensures Same(start, Turn(t, cost, n, eps).state, n, eps)
  {
    var Swap(e, r) := Choose(t, cost, n, eps);
    PivotKeeps(t, r, e, n);
    if eps == 0.0 && RhsNonNegative(start, n) {
      ExactMoveKeepsRhs(t, cost, n);
    }
  }

  lemma RunKeeps(t: Tableau, cost: seq<real>, n: nat, eps: Tolerance, fuel: nat)
    requires Canonical(t, n) && |cost| == n
    ensures Same(t, Run(t, cost, n, eps, fuel).0, n, eps)
  {
    var inv := x => Same(t, x, n, eps);
    forall x | inv(x) && Turns(cost, n, eps)(x).Next? ensures inv(Turns(cost, n, eps)(x).state) {
      TurnKeeps(t, x, cost, n, eps);
    }
    IterateKeeps(Turns(cost, n, eps), inv, t, fuel);
  }

  lemma UnboundedRay(t: Tableau, cost: seq<real>, e: nat, n: nat, bound: real) returns (x: seq<real>)
    requires Canonical(t, n) && RhsNonNegative(t, n) && |cost| == n
    requires e < n && Reduced(t, cost, n, e) < 0.0 && forall i :: 0 <= i < |t.rows| ==> t.rows[i][e] <= 0.0
    ensures Solves(t, x, n) && NonNegative(x) && Dot(cost, x, n) < bound
  {
    EnteringNotBasic(t, cost, n, e);
    var r := Reduced(t, cost, n, e);
    var v := Value(t, cost, n);
    var theta := if v < bound then 0.0 else (v - bound + 1.0) / -r;
    FarEnough(v, bound, r, theta);
    AlongDirection(t, cost, e, n, theta);
    DirectionAt(t, e, n);
    BasicSolves(t, n);
    var d := Direction(t, e, n);
    x := AddScaled(Basic(t, n), theta, d);
    forall j | 0 <= j < n ensures x[j] >= 0.0 {
      if j in t.basis {
        var i :| 0 <= i < |t.basis| && t.basis[i] == j;
        assert t.rows[i][e] <= 0.0;
      }
      assert d[j] >= 0.0;
      ProductNonNegative(theta, d[j]);
    }
  }

  lemma FarEnough(v: real, bound: real, r: real, theta: real)
    requires r < 0.0 && theta == if v < bound then 0.0 else (v - bound + 1.0) / -r
    ensures theta >= 0.0 && v + theta * r < bound
  {
    if v >= bound {
      RatioTimes(v - bound + 1.0, -r);
    }
  }

  lemma ProductNonNegative(a: real, b: real)
    requires a >= 0.0 && b >= 0.0
    ensures a * b >= 0.0
  {
  }

  // Columns 1 and 2 are basic; column 0 enters. The ratios are 0 and eps / (1 + eps), a
  // tie within eps that the lower basic column of the second row wins.
  function TiedTableau(eps: real): Tableau {
    Tableau([[1.0 + eps, 0.0, 1.0, 0.0], [1.0 + eps, 1.0, 0.0, eps]], [2, 1])
  }

  function TiedCost(eps: real): (cost: seq<real>)
    ensures |cost| == 3
  {
    [-2.0 * eps - 1.0, 0.0, 0.0]
  }

  lemma TieEnters(eps: real)
    requires eps > 0.0
    ensures Entering(TiedTableau(eps), TiedCost(eps), 3, eps, 0) == 0
  {
    var t, cost := TiedTableau(eps), TiedCost(eps);
    assert Priced(t, cost, 3, 0, 0) == Priced(t, cost, 3, 0, 1) == Priced(t, cost, 3, 0, 2) == 0.0;
  }

  lemma TieChooses(eps: real)
    requires eps > 0.0
    ensures Choose(TiedTableau(eps), TiedCost(eps), 3, eps) == Swap(0, 1)
  {
    var t := TiedTableau(eps);
    TieEnters(eps);
    SmallRatio(eps);
    assert RatioTest(t, 0, 3, eps, 1) == Row(0, 0.0);
    assert RatioTest(t, 0, 3, eps, 2) == Row(1, eps / (1.0 + eps));
  }

  // The tolerance is what keeps right-hand sides non-negative only when it is 0: for every
  // positive one there is a tableau that a pivot leaves with a negative right-hand side.
  lemma TolerantPivotCanGoNegative(eps: real)
    requires eps > 0.0
    ensures var (t, cost) := (TiedTableau(eps), TiedCost(eps));
            && Canonical(t, 3) && RhsNonNegative(t, 3)
            && var move := Choose(t, cost, 3, eps);
            && move.Swap? && !RhsNonNegative(Pivot(t, move.row, move.enter, 3), 3)
  {
    var t, a := TiedTableau(eps), 1.0 + eps;
    TieChooses(eps);
    SmallRatio(eps);
    Eliminates(t.rows[0], t.rows[1], a, 3);
    assert Pivot(t, 1, 0, 3).rows[0][3] < 0.0;
  }

  lemma Eliminates(row: seq<real>, pivot: seq<real>, a: real, j: nat)
    requires |row| == |pivot| && j < |row| && a != 0.0
    ensures AddScaled(row, -a, Divided(pivot, a))[j] == row[j] + -a * (pivot[j] / a)
  {
  }

  lemma SmallRatio(eps: real)
    requires eps > 0.0
    ensures var a := 1.0 + eps;
            0.0 / a == 0.0 && 0.0 < eps / a <= eps && -a * (eps / a) == -eps
  {
    var a := 1.0 + eps;
    RatioTimes(eps, a);
    assert eps <= eps * a;
    assert eps / a <= (eps * a) / a == eps;
  }
}
