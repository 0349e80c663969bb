// The stake optimizer's linear program: maximise the smallest state return of a split of 1.

module Maximin {
  import opened Vectors
  import opened SimplexTableau
  import opened Simplex

  // Every state has one multiplier a leg.
  predicate Rectangular(matrix: seq<seq<real>>, legs: nat) {
    forall j :: 0 <= j < |matrix| ==> |matrix[j]| == legs
  }

  ghost predicate NonNegativeRows(matrix: seq<seq<real>>) {
    forall j :: 0 <= j < |matrix| ==> NonNegative(matrix[j])
  }

  // ---------------------------------------------------------------- the program

  // One variable a leg, the two halves of the guaranteed return, and one slack a row.
  function Variables(legs: nat, states: nat): (n: nat) {
    legs + states + 4
  }

  function Objective(legs: nat, states: nat): (c: seq<real>)
    ensures |c| == Variables(legs, states)
  {
    seq(Variables(legs, states), k => if k == legs then -1.0 else if k == legs + 1 then 1.0 else 0.0)
  }

  // -a_j·x + z+ - z- + slack_j
  function StateRow(row: seq<real>, states: nat, j: nat): (line: seq<real>)
    ensures |line| == Variables(|row|, states)
  {
    var legs := |row|;
    seq(Variables(legs, states), k requires 0 <= k < Variables(legs, states) =>
      if k < legs then -row[k]
      else if k == legs || k == legs + 2 + j then 1.0
      else if k == legs + 1 then -1.0
      else 0.0)
  }

  // sign * the sum of x, plus its own slack
  function SumRow(legs: nat, states: nat, sign: real, slack: nat): (line: seq<real>)
    ensures |line| == Variables(legs, states)
  {
    seq(Variables(legs, states), k => if k < legs then sign else if k == legs + 2 + slack then 1.0 else 0.0)
  }

  function StateRows(matrix: seq<seq<real>>): (rows: seq<seq<real>>)
    ensures |rows| == |matrix| && forall j :: 0 <= j < |matrix| ==> rows[j] == StateRow(matrix[j], |matrix|, j)
  {
    seq(|matrix|, j requires 0 <= j < |matrix| => StateRow(matrix[j], |matrix|, j))
  }

  function Program(matrix: seq<seq<real>>, legs: nat): (A: seq<seq<real>>) {
    StateRows(matrix)
    + [SumRow(legs, |matrix|, 1.0, |matrix|), SumRow(legs, |matrix|, -1.0, |matrix| + 1)]
  }

  function Rhs(states: nat): (b: seq<real>)
    ensures |b| == states + 2
  {
    Zeros(states) + [1.0, -1.0]
  }

  // ---------------------------------------------------------------- reading a row

  // Beyond k only entry p counts.
  lemma {:induction false} DotBeyond(a: seq<real>, z: seq<real>, k: nat, n: nat, p: nat)
    requires k <= n <= |a| && n <= |z|
    requires forall q :: k <= q < n && q != p ==> a[q] == 0.0
    ensures Dot(a, z, n) == Dot(a, z, k) + if k <= p < n then a[p] * z[p] else 0.0
  {
    if n > k {
      DotBeyond(a, z, k, n - 1, p);
    }
  }

  lemma {:induction false} DotNegated(a: seq<real>, row: seq<real>, z: seq<real>, n: nat)
    requires n <= |a| && n <= |row| && n <= |z| && forall k :: 0 <= k < n ==> a[k] == -row[k]
    ensures Dot(a, z, n) == -Dot(row, z, n)
  {
    if n > 0 {
      DotNegated(a, row, z, n - 1);
      assert a[n - 1] * z[n - 1] == -(row[n - 1] * z[n - 1]);
    }
  }

  lemma {:induction false} DotConstant(a: seq<real>, sign: real, z: seq<real>, n: nat)
    requires n <= |a| && n <= |z| && forall k :: 0 <= k < n ==> a[k] == sign
    ensures Dot(a, z, n) == sign * Sum(z, n)
  {
    if n > 0 {
      DotConstant(a, sign, z, n - 1);
    }
  }

  lemma StateRowDot(row: seq<real>, states: nat, j: nat, z: seq<real>, legs: nat, n: nat)
    requires legs == |row| && n == Variables(legs, states) == |z| && j < states
    ensures Dot(StateRow(row, states, j), z, n) == -Dot(row, z, legs) + z[legs] - z[legs + 1] + z[legs + 2 + j]
  {
    var a := StateRow(row, states, j);
    DotNegated(a, row, z, legs);
    DotBeyond(a, z, legs, legs + 1, legs);
    DotBeyond(a, z, legs + 1, legs + 2, legs + 1);
    DotBeyond(a, z, legs + 2, n, legs + 2 + j);
  }

  lemma SumRowDot(legs: nat, states: nat, sign: real, slack: nat, z: seq<real>, n: nat)
    requires n == Variables(legs, states) == |z| && slack < states + 2
    ensures Dot(SumRow(legs, states, sign, slack), z, n) == sign * Sum(z, legs) + z[legs + 2 + slack]
  {
    var a := SumRow(legs, states, sign, slack);
    DotConstant(a, sign, z, legs);
    DotBeyond(a, z, legs, n, legs + 2 + slack);
  }

  lemma ObjectiveDot(legs: nat, states: nat, z: seq<real>, n: nat)
    requires n == Variables(legs, states) == |z|
    ensures Dot(Objective(legs, states), z, n) == z[legs + 1] - z[legs]
  {
    var c := Objective(legs, states);
    DotBeyond(c, z, 0, legs, legs);
    DotBeyond(c, z, legs, legs + 1, legs);
    DotBeyond(c, z, legs + 1, n, legs + 1);
  }

  // ---------------------------------------------------------------- what the program says

  // The rows of the program, with what each row's artificial adds.
  ghost predicate RowsHold(matrix: seq<seq<real>>, legs: nat, z: seq<real>, n: nat, extra: seq<real>)
    requires Rectangular(matrix, legs) && n == Variables(legs, |matrix|) <= |z| && |extra| == |matrix| + 2
  {
    var states := |matrix|;
    && (forall j :: 0 <= j < states ==>
          -Dot(matrix[j], z, legs) + z[legs] - z[legs + 1] + z[legs + 2 + j] + extra[j] == 0.0)
    && Sum(z, legs) + z[legs + 2 + states] + extra[states] == 1.0
    && Sum(z, legs) - z[legs + 3 + states] + extra[states + 1] == 1.0
  }

  lemma ProgramRows(matrix: seq<seq<real>>, legs: nat, z: seq<real>, n: nat, i: nat)
    requires Rectangular(matrix, legs) && n == Variables(legs, |matrix|) == |z| && i < |matrix| + 2
    ensures |Program(matrix, legs)| == |matrix| + 2
    ensures RowOf(Program(matrix, legs), i, n) == Program(matrix, legs)[i]
    ensures Dot(Program(matrix, legs)[i], z, n) ==
      if i < |matrix| then -Dot(matrix[i], z, legs) + z[legs] - z[legs + 1] + z[legs + 2 + i]
      else if i == |matrix| then Sum(z, legs) + z[legs + 2 + i]
      else -Sum(z, legs) + z[legs + 2 + i]
  {
    var states := |matrix|;
    if i < states {
      StateRowDot(matrix[i], states, i, z, legs, n);
    } else {
      SumRowDot(legs, states, if i == states then 1.0 else -1.0, i, z, n);
    }
  }

  // A point of the program is a point whose rows hold with nothing added.
  lemma ProgramMeans(matrix: seq<seq<real>>, legs: nat, z: seq<real>, n: nat)
    requires Rectangular(matrix, legs) && n == Variables(legs, |matrix|) == |z|
    ensures Feasible(Program(matrix, legs), Rhs(|matrix|), n, z) <==>
              NonNegative(z) && RowsHold(matrix, legs, z, n, Zeros(|matrix| + 2))
  {
    var A, b, states := Program(matrix, legs), Rhs(|matrix|), |matrix|;
    var extra := Zeros(states + 2);
    assert b[states] == 1.0 && b[states + 1] == -1.0;
    forall i | 0 <= i < states + 2
      ensures Dot(RowOf(A, i, n), z, n) == At(b, i) <==>
        if i < states then -Dot(matrix[i], z, legs) + z[legs] - z[legs + 1] + z[legs + 2 + i] + extra[i] == 0.0
        else if i == states then Sum(z, legs) + z[legs + 2 + states] + extra[states] == 1.0
        else Sum(z, legs) - z[legs + 3 + states] + extra[states + 1] == 1.0
    {
      ProgramRows(matrix, legs, z, n, i);
    }
    assert Dot(RowOf(A, states, n), z, n) == At(b, states) <==> Sum(z, legs) + z[legs + 2 + states] + extra[states] == 1.0;
    assert Dot(RowOf(A, states + 1, n), z, n) == At(b, states + 1)
      <==> Sum(z, legs) - z[legs + 3 + states] + extra[states + 1] == 1.0;
  }

  // A point of the starting tableau is one whose rows hold with its artificials added.
  lemma StartMeans(matrix: seq<seq<real>>, legs: nat, z: seq<real>, n: nat, m: nat)
    requires Rectangular(matrix, legs) && n == Variables(legs, |matrix|) && m == |matrix| + 2
    requires |z| == n + m == Width(Program(matrix, legs), n)
    requires Solves(Start(Program(matrix, legs), Rhs(|matrix|), n), z, n + m)
    ensures RowsHold(matrix, legs, z[..n], n, z[n..])
  {
    var A, b, states := Program(matrix, legs), Rhs(|matrix|), |matrix|;
    var x, extra := z[..n], z[n..];
    StartSolves(A, b, n, z);
    assert b[states] == 1.0 && b[states + 1] == -1.0;
    forall j | 0 <= j < states
      ensures -Dot(matrix[j], x, legs) + x[legs] - x[legs + 1] + x[legs + 2 + j] + extra[j] == 0.0
    {
      ProgramRows(matrix, legs, x, n, j);
      assert extra[j] == z[n + j];
    }
    ProgramRows(matrix, legs, x, n, states);
    ProgramRows(matrix, legs, x, n, states + 1);
    assert extra[states] == z[n + states] && extra[states + 1] == z[n + (states + 1)];
  }

  // ---------------------------------------------------------------- repairing a point

  // Raise the first leg until the split sums to 1, and let the slacks absorb the artificials.
  function Repaired(matrix: seq<seq<real>>, legs: nat, x: seq<real>, n: nat, extra: seq<real>): (y: seq<real>)
    requires Rectangular(matrix, legs) && legs > 0 && n == Variables(legs, |matrix|) == |x| && |extra| == |matrix| + 2
    ensures |y| == n
  {
    var states, rise := |matrix|, 1.0 - Sum(x, legs);
    seq(n, k requires 0 <= k < n =>
      if k == 0 then x[0] + rise
      else if k < legs + 2 then x[k]
      else if k < legs + 2 + states then x[k] + extra[k - legs - 2] + matrix[k - legs - 2][0] * rise
      else 0.0)
  }

  // Raising the first entry of x by `rise`.
  lemma {:induction false} RaisedFirst(row: seq<real>, x: seq<real>, y: seq<real>, rise: real, n: nat)
    requires 0 < n <= |row| && n <= |x| && n <= |y|
    requires y[0] == x[0] + rise && forall k :: 1 <= k < n ==> y[k] == x[k]
    ensures Sum(y, n) == Sum(x, n) + rise
    ensures Dot(row, y, n) == Dot(row, x, n) + row[0] * rise
  {
    if n == 1 {
      assert row[0] * y[0] == row[0] * x[0] + row[0] * rise;
      assert Dot(row, x, 0) == Dot(row, y, 0) == Sum(x, 0) == Sum(y, 0) == 0.0;
    } else {
      RaisedFirst(row, x, y, rise, n - 1);
    }
  }

  lemma ProductNotNegative(a: real, b: real)
    requires a >= 0.0 && b >= 0.0
    ensures a * b >= 0.0
  {
  }

  // One state row of the repaired point.
  lemma RepairedRow(row: seq<real>, legs: nat, x: seq<real>, y: seq<real>, rise: real, slack: nat, extra: real)
    requires 0 < legs == |row| && legs + 2 <= slack < |x| == |y| && NonNegative(row) && NonNegative(x)
    requires rise >= 0.0 && extra >= 0.0
    requires y[0] == x[0] + rise && forall k :: 1 <= k < legs + 2 ==> y[k] == x[k]
    requires y[slack] == x[slack] + extra + row[0] * rise
    requires -Dot(row, x, legs) + x[legs] - x[legs + 1] + x[slack] + extra == 0.0
    ensures y[slack] >= 0.0
    ensures -Dot(row, y, legs) + y[legs] - y[legs + 1] + y[slack] == 0.0
  {
    ProductNotNegative(row[0], rise);
    RaisedFirst(row, x, y, rise, legs);
  }

  // A point with artificials, repaired, is a point of the program with the same guaranteed return.
  lemma RepairedHolds(matrix: seq<seq<real>>, legs: nat, x: seq<real>, n: nat, extra: seq<real>)
    requires Rectangular(matrix, legs) && legs > 0 && n == Variables(legs, |matrix|) == |x| && |extra| == |matrix| + 2
    requires NonNegativeRows(matrix) && NonNegative(x) && NonNegative(extra) && RowsHold(matrix, legs, x, n, extra)
    ensures NonNegative(Repaired(matrix, legs, x, n, extra))
    ensures RowsHold(matrix, legs, Repaired(matrix, legs, x, n, extra), n, Zeros(|matrix| + 2))
  {
    var y, states, rise := Repaired(matrix, legs, x, n, extra), |matrix|, 1.0 - Sum(x, legs);
    assert rise == x[legs + 2 + states] + extra[states] >= 0.0;
    forall j | 0 <= j < states
      ensures -Dot(matrix[j], y, legs) + y[legs] - y[legs + 1] + y[legs + 2 + j] == 0.0 && y[legs + 2 + j] >= 0.0
    {
      RepairedRow(matrix[j], legs, x, y, rise, legs + 2 + j, extra[j]);
    }
    RaisedFirst(Zeros(legs), x, y, rise, legs);
    forall k | 0 <= k < n ensures y[k] >= 0.0 {
      if legs + 2 <= k < legs + 2 + states {
        var j := k - legs - 2;
        assert |matrix[j]| == legs && y[legs + 2 + j] >= 0.0;
      }
    }
  }
}
