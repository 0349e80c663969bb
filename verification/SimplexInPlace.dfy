// The solver as it works: one tableau, one basis and one cost vector, overwritten in place.

module SimplexInPlace {
  import opened Vectors
  import opened Iteration
  import opened SimplexTableau
  import opened SimplexRun
  import opened Simplex

  class Solver {
    const variables: nat
    const constraints: nat
    const columns: nat
    const tableau: array2<real>
    const basis: array<nat>
    const cost: array<real>

    ghost predicate Valid()
      reads basis
    {
      && columns == variables + constraints
      && tableau.Length0 == constraints && tableau.Length1 == columns + 1
      && basis.Length == constraints && cost.Length == columns
      && forall i :: 0 <= i < constraints ==> basis[i] < columns
    }

    ghost function RowAt(i: nat): (r: seq<real>)
      requires i < tableau.Length0
      reads tableau
      ensures |r| == tableau.Length1 && forall j :: 0 <= j < |r| ==> r[j] == tableau[i, j]
    {
      seq(tableau.Length1, j requires 0 <= j < tableau.Length1 reads tableau => tableau[i, j])
    }

    // The tableau the arrays stand for.
    ghost function Current(): (t: Tableau)
      requires Valid()
      reads tableau, basis
      ensures Shaped(t, columns) && |t.rows| == constraints
    {
      Tableau(seq(constraints, i requires 0 <= i < constraints reads tableau => RowAt(i)), basis[..])
    }

    // The starting tableau, rows with a negative right-hand side negated, artificials basic.
    constructor (c: seq<real>, A: seq<seq<real>>, b: seq<real>)
      ensures Valid() && fresh(tableau) && fresh(basis) && fresh(cost)
      ensures variables == |c| && constraints == |A|
      ensures Current() == Start(A, b, |c|)
      ensures cost[..] == Costs(Zeros(|c|), |A|, 1.0)
    {
      variables, constraints, columns := |c|, |A|, |c| + |A|;
      tableau := new real[|A|, |c| + |A| + 1];
      basis := new nat[|A|](i => |c| + i);
      cost := new real[|c| + |A|](j => if j < |c| then 0.0 else 1.0);
      new;
      for row := 0 to constraints
        invariant Valid() && fresh(tableau) && fresh(basis) && fresh(cost)
        invariant forall i, j :: 0 <= i < row && 0 <= j <= columns ==> tableau[i, j] == StartEntry(A, b, |c|, i, j)
        invariant forall i :: 0 <= i < constraints ==> basis[i] == variables + i
        invariant forall j :: 0 <= j < columns ==> cost[j] == if j < variables then 0.0 else 1.0
      {
        for column := 0 to columns + 1
          modifies tableau
          invariant forall i, j :: 0 <= i < row && 0 <= j <= columns ==> tableau[i, j] == StartEntry(A, b, |c|, i, j)
          invariant forall j :: 0 <= j < column ==> tableau[row, j] == StartEntry(A, b, |c|, row, j)
        {
          tableau[row, column] := StartEntry(A, b, |c|, row, column);
        }
      }
      forall i | 0 <= i < constraints ensures RowAt(i) == StartRow(A, b, |c|, i) {
      }
      assert Current().rows == Start(A, b, |c|).rows;
      assert Current().basis == Start(A, b, |c|).basis;
    }

    // Gauss-Jordan elimination on (leaveRow, enterColumn).
    method PivotAt(leaveRow: nat, enterColumn: nat)
      requires Valid() && leaveRow < constraints && enterColumn < columns && tableau[leaveRow, enterColumn] != 0.0
      modifies tableau, basis
      ensures Valid() && Current() == Pivot(old(Current()), leaveRow, enterColumn, columns)
    {
      ghost var before := Current();
      var pivotValue := tableau[leaveRow, enterColumn];
      ghost var scaled := Divided(before.rows[leaveRow], pivotValue);
      for column := 0 to columns + 1
        modifies tableau
        invariant forall j :: 0 <= j < column ==> tableau[leaveRow, j] == scaled[j]
        invariant forall j :: column <= j <= columns ==> tableau[leaveRow, j] == before.rows[leaveRow][j]
        invariant forall i, j :: 0 <= i < constraints && i != leaveRow && 0 <= j <= columns ==>
                                   tableau[i, j] == before.rows[i][j]
      {
        tableau[leaveRow, column] := tableau[leaveRow, column] / pivotValue;
      }
      for row := 0 to constraints
        modifies tableau
        invariant forall j :: 0 <= j <= columns ==> tableau[leaveRow, j] == scaled[j]
        invariant forall i, j :: 0 <= i < row && i != leaveRow && 0 <= j <= columns ==>
                                   tableau[i, j] == PivotedRow(before, leaveRow, enterColumn, columns, i)[j]
        invariant forall i, j :: row <= i < constraints && i != leaveRow && 0 <= j <= columns ==>
                                   tableau[i, j] == before.rows[i][j]
      {
        if row != leaveRow {
          EliminateRow(leaveRow, enterColumn, row, before, scaled);
        }
      }
      basis[leaveRow] := enterColumn;
      forall i | 0 <= i < constraints ensures RowAt(i) == PivotedRow(before, leaveRow, enterColumn, columns, i) {
      }
      assert Current().rows == Pivot(before, leaveRow, enterColumn, columns).rows;
    }

    // Subtracts a multiple of the scaled pivot row from `row`; a zero factor is skipped.
    method EliminateRow(leaveRow: nat, enterColumn: nat, row: nat, ghost before: Tableau, ghost scaled: seq<real>)
      requires Valid() && leaveRow < constraints && enterColumn < columns && row < constraints && row != leaveRow
      requires Shaped(before, columns) && |before.rows| == constraints
      requires before.rows[leaveRow][enterColumn] != 0.0
      requires scaled == Divided(before.rows[leaveRow], before.rows[leaveRow][enterColumn])
      requires forall j :: 0 <= j <= columns ==> tableau[leaveRow, j] == scaled[j]
      requires forall j :: 0 <= j <= columns ==> tableau[row, j] == before.rows[row][j]
      modifies tableau
      ensures forall j :: 0 <= j <= columns ==>
                            tableau[row, j] == PivotedRow(before, leaveRow, enterColumn, columns, row)[j]
      ensures forall i, j :: 0 <= i < constraints && i != row && 0 <= j <= columns ==>
                               tableau[i, j] == old(tableau[i, j])
    {
      var factor := tableau[row, enterColumn];
      ghost var target := AddScaled(before.rows[row], -factor, scaled);
      if factor == 0.0 {
        forall j | 0 <= j <= columns ensures target[j] == before.rows[row][j] {
        }
      } else {
        for column := 0 to columns + 1
          invariant forall j :: 0 <= j < column ==> tableau[row, j] == target[j]
          invariant forall j :: column <= j <= columns ==> tableau[row, j] == before.rows[row][j]
          invariant forall i, j :: 0 <= i < constraints && i != row && 0 <= j <= columns ==>
                                     tableau[i, j] == old(tableau[i, j])
        {
          var was, scale := tableau[row, column], tableau[leaveRow, column];
          assert target[column] == was - factor * scale;
          tableau[row, column] := was - factor * scale;
        }
      }
    }

    // cost[column] minus what the basis pays for it.
    method ReducedCost(column: nat) returns (reduced: real)
      requires Valid() && column < columns
      ensures reduced == Reduced(Current(), cost[..], columns, column)
    {
      ghost var t, costs := Current(), cost[..];
      reduced := cost[column];
      for row := 0 to constraints
        invariant reduced == costs[column] - Priced(t, costs, columns, column, row)
      {
        assert t.rows[row][column] == tableau[row, column];
        reduced := reduced - cost[basis[row]] * tableau[row, column];
      }
    }

    method ChooseColumn(eps: Tolerance) returns (enter: nat)
      requires Valid()
      ensures enter == Entering(Current(), cost[..], columns, eps, 0)
    {
      enter := 0;
      while enter < columns
        invariant enter <= columns
        invariant Entering(Current(), cost[..], columns, eps, 0) == Entering(Current(), cost[..], columns, eps, enter)
      {
        var reduced := ReducedCost(enter);
        if reduced < 0.0 - eps {
          return;
        }
        enter := enter + 1;
      }
    }

    method ChooseRow(enter: nat, eps: Tolerance) returns (leave: Leaving)
      requires Valid() && enter < columns
      ensures leave == RatioTest(Current(), enter, columns, eps, constraints)
    {
      ghost var t := Current();
      leave := NoRow;
      for row := 0 to constraints
        invariant leave == RatioTest(t, enter, columns, eps, row)
      {
        var coefficient, rhs := tableau[row, enter], tableau[row, columns];
        assert t.rows[row][enter] == coefficient && t.rows[row][columns] == rhs && t.basis[row] == basis[row];
        if coefficient > eps {
          var ratio := rhs / coefficient;
          if leave.NoRow? || Beats(ratio, basis[row], leave.ratio, basis[leave.row], eps) {
            leave := Row(row, ratio);
          }
        }
      }
    }

    // One turn of the pivoting loop: stop, or pivot and go on.
    method TakeTurn(eps: Tolerance) returns (stop: bool, exit: Exit)
      requires Valid()
      modifies tableau, basis
      ensures Valid()
      ensures stop ==> Current() == old(Current())
      ensures Turns(cost[..], columns, eps)(old(Current())) == if stop then Stop(exit) else Next(Current())
    {
      ghost var t := Current();
      var enter := ChooseColumn(eps);
      if enter == columns {
        return true, Optimal;
      }
      var leave := ChooseRow(enter, eps);
      if leave.NoRow? {
        return true, Unbounded;
      }
      assert t.rows[leave.row][enter] == tableau[leave.row, enter];
      PivotAt(leave.row, enter);
      stop, exit := false, Capped;
    }

    // A turn that goes on leaves the rest of the phase to do; one that stops has done it.
    method TakeTurnOf(eps: Tolerance, ghost left: nat) returns (stop: bool, exit: Exit)
      requires Valid()
      modifies tableau, basis
      ensures Valid()
      ensures Run(old(Current()), cost[..], columns, eps, left + 1)
              == if stop then (Current(), exit) else Run(Current(), cost[..], columns, eps, left)
    {
      ghost var t := Current();
      stop, exit := TakeTurn(eps);
      IterateTurn(Turns(cost[..], columns, eps), t, left + 1, left);
    }

    // One phase of pivoting.
    method Phase(eps: Tolerance, maxIterations: nat) returns (exit: Exit)
      requires Valid()
      modifies tableau, basis
      ensures Valid()
      ensures (Current(), exit) == Run(old(Current()), cost[..], columns, eps, maxIterations)
    {
      ghost var goal := Run(Current(), cost[..], columns, eps, maxIterations);
      ghost var left := maxIterations;
      for iteration := 0 to maxIterations
        modifies tableau, basis
        invariant Valid() && left == maxIterations - iteration
        invariant Run(Current(), cost[..], columns, eps, left) == goal
      {
        left := left - 1;
        var stop;
        stop, exit := TakeTurnOf(eps, left);
        if stop {
          return;
        }
      }
      exit := Capped;
    }

    // The first usable structural column of `row` that is not basic.
    method FindReplacement(row: nat, eps: Tolerance) returns (column: nat)
      requires Valid() && row < constraints
      ensures column == Replacement(Current(), variables, constraints, eps, row, 0)
    {
      ghost var t := Current();
      column := 0;
      while column < variables
        invariant column <= variables
        invariant Replacement(t, variables, constraints, eps, row, 0)
                  == Replacement(t, variables, constraints, eps, row, column)
      {
        assert t.rows[row][column] == tableau[row, column];
        if Abs(tableau[row, column]) > eps && column !in basis[..] {
          return;
        }
        column := column + 1;
      }
    }

    method DriveRowOut(row: nat, eps: Tolerance) returns (stuck: bool)
      requires Valid() && row < constraints
      modifies tableau, basis
      ensures Valid()
      ensures DriveRow(old(Current()), variables, constraints, eps, row) == if stuck then Stuck else Clear(Current())
    {
      ghost var t := Current();
      assert t.rows[row][columns] == tableau[row, columns];
      if basis[row] < variables {
        return false;
      }
      if Abs(tableau[row, columns]) > eps {
        return true;
      }
      var column := FindReplacement(row, eps);
      if column < variables {
        assert t.rows[row][column] == tableau[row, column];
        PivotAt(row, column);
      }
      stuck := false;
    }

    // One turn of the loop below, as a step of the whole drive.
    method DriveOne(row: nat, eps: Tolerance) returns (stuck: bool)
      requires Valid() && row < constraints
      modifies tableau, basis
      ensures Valid()
      ensures DriveOut(old(Current()), variables, constraints, eps, row)
              == if stuck then Stuck else DriveOut(Current(), variables, constraints, eps, row + 1)
    {
      stuck := DriveRowOut(row, eps);
    }

    // Pivot basic artificials out where possible; stuck when one of them is not at 0.
    method DriveArtificialsOut(eps: Tolerance) returns (stuck: bool)
      requires Valid()
      modifies tableau, basis
      ensures Valid()
      ensures DriveOut(old(Current()), variables, constraints, eps, 0) == if stuck then Stuck else Clear(Current())
    {
      ghost var t := Current();
      ghost var goal := DriveOut(t, variables, constraints, eps, 0);
      for row := 0 to constraints
        modifies tableau, basis
        invariant Valid() && t == Current() && DriveOut(t, variables, constraints, eps, row) == goal
      {
        stuck := DriveOne(row, eps);
        if stuck {
          return;
        }
        t := Current();
      }
      stuck := false;
    }

    // The objective of the basic solution under the current costs.
    method BasicObjective() returns (sum: real)
      requires Valid()
      ensures sum == Value(Current(), cost[..], columns)
    {
      ghost var t, costs := Current(), cost[..];
      sum := 0.0;
      for row := 0 to constraints
        invariant sum == Priced(t, costs, columns, columns, row)
      {
        assert t.rows[row][columns] == tableau[row, columns];
        sum := sum + cost[basis[row]] * tableau[row, columns];
      }
    }

    method SetCosts(c: seq<real>, artificialCost: real)
      requires Valid() && |c| == variables
      modifies cost
      ensures cost[..] == Costs(c, constraints, artificialCost)
    {
      for column := 0 to variables
        invariant forall j :: 0 <= j < column ==> cost[j] == c[j]
      {
        cost[column] := c[column];
      }
      for row := 0 to constraints
        invariant forall j :: 0 <= j < variables ==> cost[j] == c[j]
        invariant forall j :: variables <= j < variables + row ==> cost[j] == artificialCost
      {
        cost[variables + row] := artificialCost;
      }
    }

    // The structural part of the basic solution.
    method ReadSolution() returns (solution: seq<real>)
      requires Valid()
      ensures solution == Basic(Current(), columns)[..variables]
    {
      ghost var basic, rhs := Current().basis, RhsOf(Current(), columns);
      assert basis[..] == basic && forall row :: 0 <= row < constraints ==> rhs[row] == tableau[row, columns];
      var values := new real[variables](_ => 0.0);
      assert values[..] == Spread(basic, rhs, columns, 0)[..variables];
      for row := 0 to constraints
        invariant values[..] == Spread(basic, rhs, columns, row)[..variables]
      {
        SpreadStep(basic, rhs, columns, row, variables);
        Place(values, basis[row], tableau[row, columns]);
      }
      solution := values[..];
    }
  }

  // Columns past the end of the array are artificial.
  method Place(values: array<real>, column: nat, value: real)
    modifies values
    ensures values[..] == if column < values.Length then old(values[..])[column := value] else old(values[..])
  {
    if column < values.Length {
      values[column] := value;
    }
  }

  // The first entries of a spread vector, one basic column further.
  lemma SpreadStep(basis: seq<nat>, vals: seq<real>, n: nat, k: nat, first: nat)
    requires k < |basis| && k < |vals| && first <= n && forall i :: 0 <= i < |basis| ==> basis[i] < n
    ensures var before := Spread(basis, vals, n, k)[..first];
            Spread(basis, vals, n, k + 1)[..first] == if basis[k] < first then before[basis[k] := vals[k]] else before
  {
  }

  // Phase one, and the artificials it leaves in the basis driven out.
  method FirstPhase(solver: Solver, A: seq<seq<real>>, b: seq<real>, n: nat, s: Settings) returns (infeasible: bool)
    requires Sensible(s) && solver.Valid() && solver.variables == n && solver.constraints == |A|
    requires solver.Current() == Start(A, b, n) && solver.cost[..] == Costs(Zeros(n), |A|, 1.0)
    modifies solver.tableau, solver.basis
    ensures solver.Valid()
    ensures Handover(A, b, n, s) == if infeasible then Stuck else Clear(solver.Current())
  {
    var exit := solver.Phase(s.eps, s.maxIterations);
    assert (solver.Current(), exit) == PhaseOne(A, b, n, s);
    if exit == Unbounded {
      return true;
    }
    var artificialSum := solver.BasicObjective();
    if artificialSum > s.infeasibleSum {
      return true;
    }
    infeasible := solver.DriveArtificialsOut(s.eps);
  }

  // Phase two on what phase one handed over.
  method SecondPhase(solver: Solver, c: seq<real>, A: seq<seq<real>>, b: seq<real>, s: Settings) returns (exit: Exit)
    requires Sensible(s) && solver.Valid() && solver.variables == |c| && solver.constraints == |A|
    requires Handover(A, b, |c|, s) == Clear(solver.Current())
    modifies solver.tableau, solver.basis, solver.cost
    ensures solver.Valid() && (solver.Current(), exit) == PhaseTwo(c, A, b, s)
  {
    solver.SetCosts(c, s.artificialCost);
    exit := solver.Phase(s.eps, s.maxIterations);
  }

  // The reported solution and its objective.
  method Report(solver: Solver, c: seq<real>) returns (r: SimplexResult)
    requires solver.Valid() && solver.variables == |c|
    ensures r == ResultOf(c, solver.constraints, solver.Current())
  {
    var solution := solver.ReadSolution();
    var objective := 0.0;
    for column := 0 to |c|
      invariant objective == Dot(c, solution, column)
    {
      objective := objective + c[column] * solution[column];
    }
    r := SimplexResult(Optimum, solution, objective);
  }

  // Phase two and the report, from what phase one handed over.
  method Finish(solver: Solver, c: seq<real>, A: seq<seq<real>>, b: seq<real>, s: Settings) returns (r: SimplexResult)
    requires Sensible(s) && |A| > 0 && solver.Valid() && solver.variables == |c| && solver.constraints == |A|
    requires Handover(A, b, |c|, s) == Clear(solver.Current())
    modifies solver.tableau, solver.basis, solver.cost
    ensures r == Minimize(c, A, b, s)
  {
    var exit := SecondPhase(solver, c, A, b, s);
    if exit == Unbounded {
      return SimplexResult(NoBound, Zeros(|c|), 0.0);
    }
    r := Report(solver, c);
  }

  // The solver: two phases over one set of arrays.
  method SimplexMinimize(c: seq<real>, A: seq<seq<real>>, b: seq<real>, s: Settings) returns (r: SimplexResult)
    requires Sensible(s)
    ensures r == Minimize(c, A, b, s)
  {
    if |A| == 0 {
      return SimplexResult(Optimum, Zeros(|c|), 0.0);
    }
    var solver := new Solver(c, A, b);
    var infeasible := FirstPhase(solver, A, b, |c|, s);
    if infeasible {
      return SimplexResult(Infeasible, Zeros(|c|), 0.0);
    }
    r := Finish(solver, c, A, b, s);
  }
}
