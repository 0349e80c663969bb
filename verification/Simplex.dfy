// The two-phase solver for `minimize c·x subject to A x = b, x >= 0`, as a function, and
// what its verdicts mean.

module Simplex {
  import opened Vectors
  import opened Iteration
  import opened SimplexTableau
  import opened SimplexRun
  import opened SimplexBland
  import opened Counting

  datatype Settings = Settings(eps: real, maxIterations: nat, artificialCost: real, infeasibleSum: real)

  const SOURCE_SETTINGS := Settings(0.000000001, 20000, 1000000000000.0, 0.0000001)

  predicate Sensible(s: Settings) {
    s.eps >= 0.0 && s.artificialCost >= 0.0 && s.infeasibleSum >= 0.0
  }

  datatype Status = Optimum | Infeasible | NoBound

  datatype SimplexResult = SimplexResult(status: Status, solution: seq<real>, objective: real)

  // An absent entry counts as 0.
  function At(v: seq<real>, j: nat): real {
    if j < |v| then v[j] else 0.0
  }

  function RowOf(A: seq<seq<real>>, i: nat, n: nat): (r: seq<real>)
    requires i < |A|
    ensures |r| == n && forall j :: 0 <= j < n ==> r[j] == if j < |A[i]| then A[i][j] else 0.0
  {
    seq(n, j requires 0 <= j < n => At(A[i], j))
  }

  ghost predicate Feasible(A: seq<seq<real>>, b: seq<real>, n: nat, x: seq<real>) {
    && |x| == n && NonNegative(x)
    && forall i :: 0 <= i < |A| ==> Dot(RowOf(A, i, n), x, n) == if i < |b| then b[i] else 0.0
  }

  // ---------------------------------------------------------------- the solver

  // Structural columns and one artificial column per row.
  function Width(A: seq<seq<real>>, n: nat): (N: nat) {
    n + |A|
  }

  // v, negated when row i has a negative right-hand side.
  function Flip(b: seq<real>, i: nat, v: real): real {
    if At(b, i) < 0.0 then -v else v
  }

  // Row i with a non-negative right-hand side and its own artificial column n + i.
  function StartEntry(A: seq<seq<real>>, b: seq<real>, n: nat, i: nat, j: nat): real
    requires i < |A|
  {
    if j < n then Flip(b, i, At(A[i], j))
    else if j == Width(A, n) then Abs(At(b, i))
    else if j == n + i then 1.0
    else 0.0
  }

  function StartRow(A: seq<seq<real>>, b: seq<real>, n: nat, i: nat): (r: seq<real>)
    requires i < |A|
    ensures |r| == Width(A, n) + 1 && forall j :: 0 <= j <= Width(A, n) ==> r[j] == StartEntry(A, b, n, i, j)
  {
    seq(Width(A, n) + 1, j requires 0 <= j <= Width(A, n) => StartEntry(A, b, n, i, j))
  }

  function Start(A: seq<seq<real>>, b: seq<real>, n: nat): (t: Tableau)
    ensures Shaped(t, Width(A, n)) && |t.rows| == |A|
  {
    Tableau(seq(|A|, i requires 0 <= i < |A| => StartRow(A, b, n, i)), seq(|A|, i => n + i))
  }

  // Structural columns cost `c`, artificial ones `each`.
  function Costs(c: seq<real>, m: nat, each: real): (cost: seq<real>)
    ensures |cost| == |c| + m
    ensures forall j :: 0 <= j < |c| ==> cost[j] == c[j]
    ensures forall j :: |c| <= j < |c| + m ==> cost[j] == each
  {
    c + seq(m, _ => each)
  }

  // The first structural column from `from` on that is usable in `row` and not basic; n if none.
  function Replacement(t: Tableau, n: nat, m: nat, eps: Tolerance, row: nat, from: nat): (j: nat)
    requires Shaped(t, n + m) && row < |t.rows| && from <= n
    ensures from <= j <= n
    ensures j < n ==> t.rows[row][j] != 0.0 && j !in t.basis
    ensures forall k :: from <= k < j ==> Abs(t.rows[row][k]) <= eps || k in t.basis
    decreases n - from
  {
    if from == n then n
    else if Abs(t.rows[row][from]) > eps && from !in t.basis then from
    else Replacement(t, n, m, eps, row, from + 1)
  }

  datatype Driven = Stuck | Clear(t: Tableau)

  // Pivot the artificial that is basic in `row` out of the basis where possible; Stuck when
  // it is not at 0.
  function DriveRow(t: Tableau, n: nat, m: nat, eps: Tolerance, row: nat): (d: Driven)
    requires Shaped(t, n + m) && |t.rows| == m && row < m
    ensures d.Clear? ==> Shaped(d.t, n + m) && |d.t.rows| == m
  {
    if t.basis[row] < n then Clear(t)
    else if Abs(t.rows[row][n + m]) > eps then Stuck
    else
      var j := Replacement(t, n, m, eps, row, 0);
      if j == n then Clear(t) else Clear(Pivot(t, row, j, n + m))
  }

  function DriveOut(t: Tableau, n: nat, m: nat, eps: Tolerance, row: nat): (d: Driven)
    requires Shaped(t, n + m) && |t.rows| == m && row <= m
    ensures d.Clear? ==> Shaped(d.t, n + m) && |d.t.rows| == m
    decreases m - row
  {
    if row == m then Clear(t)
    else
      match DriveRow(t, n, m, eps, row)
      case Stuck => Stuck
      case Clear(t') => DriveOut(t', n, m, eps, row + 1)
  }

  // Where phase one leaves the tableau, and how it stopped.
  function PhaseOne(A: seq<seq<real>>, b: seq<real>, n: nat, s: Settings): (Tableau, Exit)
    requires Sensible(s)
  {
    Run(Start(A, b, n), Costs(Zeros(n), |A|, 1.0), Width(A, n), s.eps, s.maxIterations)
  }

  lemma StartCanonical(A: seq<seq<real>>, b: seq<real>, n: nat)
    ensures Healthy(Start(A, b, n), Width(A, n))
  {
  }

  lemma PhaseOneEnds(A: seq<seq<real>>, b: seq<real>, n: nat, s: Settings) returns (t: Tableau, exit: Exit)
    requires Sensible(s)
    ensures (t, exit) == PhaseOne(A, b, n, s)
    ensures PhaseEnd(Start(A, b, n), t, exit, Costs(Zeros(n), |A|, 1.0), Width(A, n), s.eps, s.maxIterations)
  {
    var start, cost := Start(A, b, n), Costs(Zeros(n), |A|, 1.0);
    StartCanonical(A, b, n);
    t, exit := RunEnds(start, cost, Width(A, n), s.eps, s.maxIterations);
  }

  lemma PhaseOneShaped(A: seq<seq<real>>, b: seq<real>, n: nat, s: Settings)
    requires Sensible(s)
    ensures Shaped(PhaseOne(A, b, n, s).0, Width(A, n)) && |PhaseOne(A, b, n, s).0.rows| == |A|
  {
    var _, _ := PhaseOneEnds(A, b, n, s);
  }

  // What phase one hands to phase two; Stuck is the infeasible verdict.
  function Handover(A: seq<seq<real>>, b: seq<real>, n: nat, s: Settings): (d: Driven)
    requires Sensible(s)
    ensures d.Clear? ==> Shaped(d.t, Width(A, n)) && |d.t.rows| == |A|
  {
    PhaseOneShaped(A, b, n, s);
    var (t, exit) := PhaseOne(A, b, n, s);
    if exit == Unbounded then Stuck
    else if Value(t, Costs(Zeros(n), |A|, 1.0), Width(A, n)) > s.infeasibleSum then Stuck
    else DriveOut(t, n, |A|, s.eps, 0)
  }

  // Where phase two leaves the tableau, and how it stopped.
  function PhaseTwo(c: seq<real>, A: seq<seq<real>>, b: seq<real>, s: Settings): (Tableau, Exit)
    requires Sensible(s) && Handover(A, b, |c|, s).Clear?
  {
    Run(Handover(A, b, |c|, s).t, Costs(c, |A|, s.artificialCost), Width(A, |c|), s.eps, s.maxIterations)
  }

  lemma DriveRowKeeps(t: Tableau, n: nat, m: nat, eps: Tolerance, row: nat, t': Tableau)
    requires Canonical(t, n + m) && |t.rows| == m && row < m
    requires DriveRow(t, n, m, eps, row) == Clear(t')
    ensures Same(t, t', n + m, eps)
  {
    var j := Replacement(t, n, m, eps, row, 0);
    if t.basis[row] >= n && j < n {
      DrivePivotKeeps(t, row, j, n + m, eps);
    }
  }

  lemma DrivePivotKeeps(t: Tableau, row: nat, j: nat, N: nat, eps: Tolerance)
    requires Canonical(t, N) && row < |t.rows| && j < N && t.rows[row][j] != 0.0
    requires eps == 0.0 ==> t.rows[row][N] == 0.0
    ensures Same(t, Pivot(t, row, j, N), N, eps)
  {
    PivotKeeps(t, row, j, N);
    if eps == 0.0 && RhsNonNegative(t, N) {
      ZeroRowPivot(t, row, j, N);
    }
  }

  lemma {:induction false} DriveOutKeeps(t: Tableau, n: nat, m: nat, eps: Tolerance, row: nat, end: Tableau)
    requires Canonical(t, n + m) && |t.rows| == m && row <= m
    requires DriveOut(t, n, m, eps, row) == Clear(end)
    ensures Same(t, end, n + m, eps)
    decreases m - row
  {
    if row < m {
      var t' := DriveRow(t, n, m, eps, row).t;
      DriveRowKeeps(t, n, m, eps, row, t');
      DriveOutKeeps(t', n, m, eps, row + 1, end);
    }
  }

  // Pivoting on a row whose right-hand side is 0 moves no right-hand side.
  lemma ZeroRowPivot(t: Tableau, row: nat, e: nat, n: nat)
    requires Shaped(t, n) && row < |t.rows| && e < n && t.rows[row][e] != 0.0 && t.rows[row][n] == 0.0
    ensures RhsOf(Pivot(t, row, e, n), n) == RhsOf(t, n)
    ensures RhsNonNegative(t, n) ==> RhsNonNegative(Pivot(t, row, e, n), n)
  {
    Quotients(0.0, 0.0, t.rows[row][e]);
    forall i | 0 <= i < |t.rows| ensures Pivot(t, row, e, n).rows[i][n] == t.rows[i][n] {
      if i != row {
        Eliminated(t.rows[i], t.rows[i][e], Divided(t.rows[row], t.rows[row][e]), n);
      }
    }
    assert RhsOf(Pivot(t, row, e, n), n) == RhsOf(t, n);
    assert forall i :: 0 <= i < |t.rows| ==> Pivot(t, row, e, n).rows[i][n] == RhsOf(t, n)[i];
  }

  lemma SameThrough(start: Tableau, mid: Tableau, end: Tableau, n: nat, eps: Tolerance)
    requires Shaped(start, n) && Same(start, mid, n, eps) && Same(mid, end, n, eps)
    ensures Same(start, end, n, eps)
  {
  }

  lemma DriveOutFrom(start: Tableau, t: Tableau, n: nat, m: nat, N: nat, eps: Tolerance, end: Tableau)
    requires N == n + m && Shaped(start, N) && |start.rows| == m && Same(start, t, N, eps)
    requires DriveOut(t, n, m, eps, 0) == Clear(end)
    ensures Same(start, end, N, eps)
  {
    DriveOutKeeps(t, n, m, eps, 0, end);
    SameThrough(start, t, end, N, eps);
  }

  lemma HandoverKeeps(A: seq<seq<real>>, b: seq<real>, n: nat, s: Settings) returns (mid: Tableau)
    requires Sensible(s) && Handover(A, b, n, s).Clear?
    ensures mid == Handover(A, b, n, s).t && Same(Start(A, b, n), mid, Width(A, n), s.eps)
  {
    var t, _ := PhaseOneEnds(A, b, n, s);
    mid := Handover(A, b, n, s).t;
    DriveOutFrom(Start(A, b, n), t, n, |A|, Width(A, n), s.eps, mid);
  }

  lemma PhaseTwoEnds(c: seq<real>, A: seq<seq<real>>, b: seq<real>, s: Settings) returns (t: Tableau, exit: Exit)
    requires Sensible(s) && Handover(A, b, |c|, s).Clear?
    ensures (t, exit) == PhaseTwo(c, A, b, s)
    ensures PhaseEnd(Start(A, b, |c|), t, exit, Costs(c, |A|, s.artificialCost), Width(A, |c|), s.eps, s.maxIterations)
  {
    var mid := HandoverKeeps(A, b, |c|, s);
    t, exit := RunFrom(Start(A, b, |c|), mid, Costs(c, |A|, s.artificialCost), Width(A, |c|), s.eps, s.maxIterations);
  }

  // A phase that starts from a tableau for the same system.
  lemma RunFrom(start: Tableau, mid: Tableau, cost: seq<real>, n: nat, eps: Tolerance, fuel: nat)
    returns (end: Tableau, exit: Exit)
    requires Shaped(start, n) && |cost| == n && Same(start, mid, n, eps)
    ensures (end, exit) == Run(mid, cost, n, eps, fuel)
    ensures PhaseEnd(start, end, exit, cost, n, eps, fuel)
  {
    end, exit := RunEnds(mid, cost, n, eps, fuel);
    SameThrough(start, mid, end, n, eps);
  }

  // The structural part of the point a phase ends at, and its cost.
  function ResultOf(c: seq<real>, m: nat, t: Tableau): SimplexResult
    requires Shaped(t, |c| + m)
  {
    var x := Basic(t, |c| + m)[..|c|];
    SimplexResult(Optimum, x, Dot(c, x, |c|))
  }

  lemma PhaseTwoShaped(c: seq<real>, A: seq<seq<real>>, b: seq<real>, s: Settings)
    requires Sensible(s) && Handover(A, b, |c|, s).Clear?
    ensures Shaped(PhaseTwo(c, A, b, s).0, Width(A, |c|))
  {
    var _, _ := PhaseTwoEnds(c, A, b, s);
  }

  function Minimize(c: seq<real>, A: seq<seq<real>>, b: seq<real>, s: Settings): SimplexResult
    requires Sensible(s)
  {
    var n, m := |c|, |A|;
    if m == 0 then SimplexResult(Optimum, Zeros(n), 0.0)
    else if Handover(A, b, n, s).Stuck? then SimplexResult(Infeasible, Zeros(n), 0.0)
    else
      if PhaseTwo(c, A, b, s).1 == Unbounded then SimplexResult(NoBound, Zeros(n), 0.0)
      else
        PhaseTwoShaped(c, A, b, s);
        ResultOf(c, m, PhaseTwo(c, A, b, s).0)
  }

  // ---------------------------------------------------------------- what the starting tableau says

  // In row i of the starting tableau, a point (x, art) weighs the flipped (A x)_i plus art_i.
  lemma {:induction false} StartDot(A: seq<seq<real>>, b: seq<real>, n: nat, i: nat, z: seq<real>, k: nat)
    requires i < |A| && |z| == Width(A, n) && k <= |A|
    ensures Dot(StartRow(A, b, n, i), z, n + k)
            == Flip(b, i, Dot(RowOf(A, i, n), z, n)) + if i < k then z[n + i] else 0.0
  {
    if k == 0 {
      StartDotStructural(A, b, n, i, z, n);
    } else {
      StartDot(A, b, n, i, z, k - 1);
      assert StartRow(A, b, n, i)[n + k - 1] == if k - 1 == i then 1.0 else 0.0;
    }
  }

  lemma {:induction false} StartDotStructural(A: seq<seq<real>>, b: seq<real>, n: nat, i: nat, z: seq<real>, k: nat)
    requires i < |A| && |z| == Width(A, n) && k <= n
    ensures Dot(StartRow(A, b, n, i), z, k) == Flip(b, i, Dot(RowOf(A, i, n), z, k))
  {
    if k > 0 {
      StartDotStructural(A, b, n, i, z, k - 1);
      assert -At(A[i], k - 1) * z[k - 1] == -(At(A[i], k - 1) * z[k - 1]);
    }
  }

  lemma Distribute(f: real, d: real, a: real, x: real)
    ensures f * (d + a * x) == f * d + (f * a) * x
  {
  }

  // Solving the starting tableau is solving A x = b up to the signed artificials.
  lemma StartSolves(A: seq<seq<real>>, b: seq<real>, n: nat, z: seq<real>)
    requires |z| == Width(A, n)
    ensures Solves(Start(A, b, n), z, Width(A, n)) <==>
              forall i :: 0 <= i < |A| ==> Flip(b, i, Dot(RowOf(A, i, n), z[..n], n)) + z[n + i] == Abs(At(b, i))
  {
    var t, N := Start(A, b, n), Width(A, n);
    forall i | 0 <= i < |A|
      ensures Dot(t.rows[i], z, N) == t.rows[i][N] <==>
                Flip(b, i, Dot(RowOf(A, i, n), z[..n], n)) + z[n + i] == Abs(At(b, i))
    {
      assert t.rows[i] == StartRow(A, b, n, i);
      StartDot(A, b, n, i, z, |A|);
      DotAgrees(RowOf(A, i, n), RowOf(A, i, n), z, z[..n], n);
    }
  }

  predicate ArtificialsZero(z: seq<real>, n: nat) {
    forall j :: n <= j < |z| ==> z[j] == 0.0
  }

  // A x = b exactly when (x, art) solves the starting tableau with every artificial at 0.
  lemma SolutionIffArtificialsZero(A: seq<seq<real>>, b: seq<real>, n: nat, z: seq<real>)
    requires |z| == Width(A, n) && Solves(Start(A, b, n), z, Width(A, n))
    ensures (forall i :: 0 <= i < |A| ==> Dot(RowOf(A, i, n), z[..n], n) == At(b, i)) <==> ArtificialsZero(z, n)
  {
    StartSolves(A, b, n, z);
    forall i | 0 <= i < |A| ensures Dot(RowOf(A, i, n), z[..n], n) == At(b, i) <==> z[n + i] == 0.0 {
    }
    if forall i :: 0 <= i < |A| ==> Dot(RowOf(A, i, n), z[..n], n) == At(b, i) {
      forall j | n <= j < |z| ensures z[j] == 0.0 {
        assert Dot(RowOf(A, j - n, n), z[..n], n) == At(b, j - n);
        assert z[n + (j - n)] == 0.0;
      }
    }
  }

  lemma FeasibleSolvesStart(A: seq<seq<real>>, b: seq<real>, n: nat, x: seq<real>)
    requires Feasible(A, b, n, x)
    ensures Solves(Start(A, b, n), x + Zeros(|A|), Width(A, n)) && NonNegative(x + Zeros(|A|))
  {
    var z := x + Zeros(|A|);
    assert z[..n] == x;
    forall i | 0 <= i < |A| ensures Flip(b, i, Dot(RowOf(A, i, n), z[..n], n)) + z[n + i] == Abs(At(b, i)) {
      assert Dot(RowOf(A, i, n), x, n) == At(b, i);
    }
    StartSolves(A, b, n, z);
  }

  // The cost of (x, art): c·x plus `each` times the sum of the artificials.
  lemma {:induction false} CostsDot(c: seq<real>, m: nat, each: real, z: seq<real>, k: nat)
    requires |z| == |c| + m && k <= m
    ensures Dot(Costs(c, m, each), z, |c| + k) == Dot(c, z, |c|) + each * Sum(z[|c|..], k)
  {
    if k == 0 {
      DotAgrees(Costs(c, m, each), c, z, z, |c|);
    } else {
      CostsDot(c, m, each, z, k - 1);
      assert z[|c|..][k - 1] == z[|c| + k - 1];
      Distribute(each, Sum(z[|c|..], k - 1), 1.0, z[|c| + k - 1]);
    }
  }

  lemma {:induction false} SumZeros(x: seq<real>, n: nat)
    requires n <= |x| && forall k :: 0 <= k < n ==> x[k] == 0.0
    ensures Sum(x, n) == 0.0
  {
    if n > 0 {
      SumZeros(x, n - 1);
    }
  }

  lemma {:induction false} SlackPadded(eps: real, x: seq<real>, m: nat, k: nat)
    requires k <= |x| + m
    ensures Slack(eps, x + Zeros(m), k) == Slack(eps, x, if k <= |x| then k else |x|)
  {
    if k > 0 {
      SlackPadded(eps, x, m, k - 1);
    }
  }

  // A feasible x, padded with artificials at 0, costs c·x and has the slack of x.
  lemma PaddedCost(c: seq<real>, m: nat, each: real, eps: real, x: seq<real>)
    requires |x| == |c|
    ensures Dot(Costs(c, m, each), x + Zeros(m), |c| + m) == Dot(c, x, |c|)
    ensures Slack(eps, x + Zeros(m), |c| + m) == Slack(eps, x, |x|)
  {
    var z := x + Zeros(m);
    CostsDot(c, m, each, z, m);
    SumZeros(z[|c|..], m);
    DotAgrees(c, c, z, x, |c|);
    SlackPadded(eps, x, m, |x| + m);
  }

  // A point whose artificials are 0 costs c·x.
  lemma UnpaddedCost(c: seq<real>, m: nat, each: real, z: seq<real>)
    requires |z| == |c| + m && ArtificialsZero(z, |c|)
    ensures Dot(Costs(c, m, each), z, |c| + m) == Dot(c, z[..|c|], |c|)
  {
    CostsDot(c, m, each, z, m);
    SumZeros(z[|c|..], m);
    DotAgrees(c, c, z, z[..|c|], |c|);
  }
}
