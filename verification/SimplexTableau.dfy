// Simplex tableaux as values: what one pivot does to the system they stand for.
//
// A tableau over `n` columns keeps its right-hand side in column `n` of every row.

module SimplexTableau {
  import opened Vectors

  datatype Tableau = Tableau(rows: seq<seq<real>>, basis: seq<nat>)

  predicate Shaped(t: Tableau, n: nat) {
    && |t.rows| == |t.basis|
    && (forall i :: 0 <= i < |t.rows| ==> |t.rows[i]| == n + 1)
    && (forall i :: 0 <= i < |t.basis| ==> t.basis[i] < n)
  }

  // Every basic column is a unit vector (so the basis repeats no column).
  ghost predicate Canonical(t: Tableau, n: nat) {
    && Shaped(t, n)
    && forall i, k :: 0 <= i < |t.rows| && 0 <= k < |t.basis| ==>
                        t.rows[i][t.basis[k]] == if i == k then 1.0 else 0.0
  }

  ghost predicate RhsNonNegative(t: Tableau, n: nat)
    requires Shaped(t, n)
  {
    forall i :: 0 <= i < |t.rows| ==> t.rows[i][n] >= 0.0
  }

  ghost predicate Solves(t: Tableau, x: seq<real>, n: nat)
    requires Shaped(t, n)
  {
    |x| == n && forall i :: 0 <= i < |t.rows| ==> Dot(t.rows[i], x, n) == t.rows[i][n]
  }

  ghost predicate NonNegative(x: seq<real>) {
    forall k :: 0 <= k < |x| ==> x[k] >= 0.0
  }

  // ---------------------------------------------------------------- pivoting

  function PivotedRow(t: Tableau, r: nat, e: nat, n: nat, i: nat): (row: seq<real>)
    requires Shaped(t, n) && r < |t.rows| && e < n && i < |t.rows| && t.rows[r][e] != 0.0
    ensures |row| == n + 1
  {
    var scaled := Divided(t.rows[r], t.rows[r][e]);
    if i == r then scaled else AddScaled(t.rows[i], -t.rows[i][e], scaled)
  }

  function Pivot(t: Tableau, r: nat, e: nat, n: nat): (moved: Tableau)
    requires Shaped(t, n) && r < |t.rows| && e < n && t.rows[r][e] != 0.0
    ensures Shaped(moved, n) && |moved.rows| == |t.rows| && moved.basis == t.basis[r := e]
  {
    Tableau(seq(|t.rows|, i requires 0 <= i < |t.rows| => PivotedRow(t, r, e, n, i)), t.basis[r := e])
  }

  lemma Quotients(u: real, w: real, p: real)
    requires p != 0.0
    ensures u / p == w / p <==> u == w
    ensures p / p == 1.0 && 0.0 / p == 0.0
  {
    assert (u / p) * p == u && (w / p) * p == w;
  }

  // A pivot rewrites the equations without changing what solves them.
  lemma PivotPreservesSolutions(t: Tableau, r: nat, e: nat, n: nat, x: seq<real>)
    requires Shaped(t, n) && r < |t.rows| && e < n && t.rows[r][e] != 0.0
    ensures Solves(Pivot(t, r, e, n), x, n) <==> Solves(t, x, n)
  {
    if |x| == n {
      var t' := Pivot(t, r, e, n);
      forall i | 0 <= i < |t.rows| && i != r
        ensures Dot(t'.rows[r], x, n) == t'.rows[r][n] ==>
                  (Dot(t'.rows[i], x, n) == t'.rows[i][n] <==> Dot(t.rows[i], x, n) == t.rows[i][n])
      {
        EliminatedRowHolds(t.rows[i], t.rows[i][e], t'.rows[r], x, n);
      }
      ScaledRowHolds(t.rows[r], t.rows[r][e], x, n);
    }
  }

  lemma ScaledRowHolds(row: seq<real>, p: real, x: seq<real>, n: nat)
    requires |row| == n + 1 && |x| == n && p != 0.0
    ensures Dot(Divided(row, p), x, n) == Divided(row, p)[n] <==> Dot(row, x, n) == row[n]
  {
    DotDivided(row, p, x, n);
    Quotients(Dot(row, x, n), row[n], p);
  }

  lemma EliminatedRowHolds(row: seq<real>, f: real, scaled: seq<real>, x: seq<real>, n: nat)
    requires |row| == |scaled| == n + 1 && |x| == n
    ensures Dot(scaled, x, n) == scaled[n] ==>
              (Dot(AddScaled(row, -f, scaled), x, n) == AddScaled(row, -f, scaled)[n] <==> Dot(row, x, n) == row[n])
  {
    DotAddScaled(row, -f, scaled, x, n);
  }

  lemma PivotKeepsCanonical(t: Tableau, r: nat, e: nat, n: nat)
    requires Canonical(t, n) && r < |t.rows| && e < n && t.rows[r][e] != 0.0
    ensures Canonical(Pivot(t, r, e, n), n)
  {
    var t' := Pivot(t, r, e, n);
    forall i, k | 0 <= i < |t'.rows| && 0 <= k < |t'.basis|
      ensures t'.rows[i][t'.basis[k]] == if i == k then 1.0 else 0.0
    {
      var scaled := Divided(t.rows[r], t.rows[r][e]);
      Quotients(0.0, 0.0, t.rows[r][e]);
      if k == r {
        assert scaled[e] == 1.0;
        Eliminated(t.rows[i], t.rows[i][e], scaled, e);
      } else {
        var j := t.basis[k];
        assert t.rows[r][j] == 0.0 && scaled[j] == 0.0;
        Eliminated(t.rows[i], t.rows[i][e], scaled, j);
      }
    }
  }

  lemma Eliminated(row: seq<real>, f: real, scaled: seq<real>, j: nat)
    requires |row| == |scaled| && j < |row|
    ensures scaled[j] == 1.0 ==> AddScaled(row, -f, scaled)[j] == row[j] - f
    ensures scaled[j] == 0.0 ==> AddScaled(row, -f, scaled)[j] == row[j]
  {
  }

  // ---------------------------------------------------------------- spreading values over a basis

  // The vector with vals[i] at basis[i] for i < k and 0 elsewhere.
  function Spread(basis: seq<nat>, vals: seq<real>, n: nat, k: nat): (x: seq<real>)
    requires k <= |basis| && k <= |vals| && forall i :: 0 <= i < |basis| ==> basis[i] < n
    ensures |x| == n
  {
    if k == 0 then Zeros(n) else Spread(basis, vals, n, k - 1)[basis[k - 1] := vals[k - 1]]
  }

  lemma CanonicalDistinct(t: Tableau, n: nat)
    requires Canonical(t, n)
    ensures forall i, k :: 0 <= i < k < |t.basis| ==> t.basis[i] != t.basis[k]
  {
    forall i, k | 0 <= i < k < |t.basis| ensures t.basis[i] != t.basis[k] {
      assert t.rows[i][t.basis[i]] == 1.0 && t.rows[i][t.basis[k]] == 0.0;
    }
  }

  lemma {:induction false} SpreadAt(basis: seq<nat>, vals: seq<real>, n: nat, k: nat)
    requires k <= |basis| && k <= |vals| && forall i :: 0 <= i < |basis| ==> basis[i] < n
    requires forall i, l :: 0 <= i < l < |basis| ==> basis[i] != basis[l]
    ensures forall i :: 0 <= i < k ==> Spread(basis, vals, n, k)[basis[i]] == vals[i]
    ensures forall j :: 0 <= j < n && j !in basis[..k] ==> Spread(basis, vals, n, k)[j] == 0.0
  {
    if k > 0 {
      SpreadAt(basis, vals, n, k - 1);
      forall j | 0 <= j < n && j !in basis[..k] ensures Spread(basis, vals, n, k)[j] == 0.0 {
        assert basis[k - 1] == basis[..k][k - 1];
        assert forall i :: 0 <= i < k - 1 ==> basis[..k - 1][i] == basis[..k][i];
      }
    }
  }

  // In a canonical tableau, row i picks vals[i] out of a spread vector.
  lemma {:induction false} SpreadRow(t: Tableau, vals: seq<real>, n: nat, k: nat, i: nat)
    requires Canonical(t, n) && |vals| == |t.basis| && k <= |vals| && i < |t.rows|
    ensures Dot(t.rows[i], Spread(t.basis, vals, n, k), n) == if i < k then vals[i] else 0.0
  {
    if k == 0 {
      DotZeros(t.rows[i], Zeros(n), n);
    } else {
      SpreadRow(t, vals, n, k - 1, i);
      CanonicalDistinct(t, n);
      SpreadAt(t.basis, vals, n, k - 1);
      var x := Spread(t.basis, vals, n, k - 1);
      var j := t.basis[k - 1];
      assert j !in t.basis[..k - 1];
      DotUpdate(t.rows[i], x, j, vals[k - 1], n);
    }
  }

  // ---------------------------------------------------------------- the basic solution

  function RhsOf(t: Tableau, n: nat): (v: seq<real>)
    requires Shaped(t, n)
    ensures |v| == |t.rows| && forall i :: 0 <= i < |v| ==> v[i] == t.rows[i][n]
  {
    seq(|t.rows|, i requires 0 <= i < |t.rows| => t.rows[i][n])
  }

  function Basic(t: Tableau, n: nat): (x: seq<real>)
    requires Shaped(t, n)
    ensures |x| == n
  {
    Spread(t.basis, RhsOf(t, n), n, |t.basis|)
  }

  lemma BasicSolves(t: Tableau, n: nat)
    requires Canonical(t, n)
    ensures Solves(t, Basic(t, n), n)
    ensures forall i :: 0 <= i < |t.basis| ==> Basic(t, n)[t.basis[i]] == t.rows[i][n]
    ensures forall j :: 0 <= j < n && j !in t.basis ==> Basic(t, n)[j] == 0.0
    ensures RhsNonNegative(t, n) ==> NonNegative(Basic(t, n))
  {
    var m := |t.basis|;
    forall i | 0 <= i < m ensures Dot(t.rows[i], Basic(t, n), n) == t.rows[i][n] {
      SpreadRow(t, RhsOf(t, n), n, m, i);
    }
    CanonicalDistinct(t, n);
    SpreadAt(t.basis, RhsOf(t, n), n, m);
    assert t.basis[..m] == t.basis;
    if RhsNonNegative(t, n) {
      forall j | 0 <= j < n ensures Basic(t, n)[j] >= 0.0 {
        if j in t.basis {
          var i :| 0 <= i < m && t.basis[i] == j;
          assert Basic(t, n)[t.basis[i]] == t.rows[i][n];
        }
      }
    }
  }

  // A solution that vanishes off the basis is the basic solution.
  lemma BasicUnique(t: Tableau, x: seq<real>, n: nat)
    requires Canonical(t, n) && Solves(t, x, n)
    requires forall j :: 0 <= j < n && j !in t.basis ==> x[j] == 0.0
    ensures x == Basic(t, n)
  {
    BasicSolves(t, n);
    var y := Basic(t, n);
    forall i | 0 <= i < |t.basis| ensures x[t.basis[i]] == t.rows[i][n] {
      OnlyBasic(t, x, n, i);
    }
    forall j | 0 <= j < n ensures x[j] == y[j] {
      if j in t.basis {
        var i :| 0 <= i < |t.basis| && t.basis[i] == j;
        assert x[t.basis[i]] == y[t.basis[i]];
      }
    }
  }

  lemma OnlyBasic(t: Tableau, x: seq<real>, n: nat, i: nat)
    requires Canonical(t, n) && |x| == n && i < |t.basis|
    requires forall j :: 0 <= j < n && j !in t.basis ==> x[j] == 0.0
    ensures Dot(t.rows[i], x, n) == x[t.basis[i]]
  {
    var j := t.basis[i];
    var x' := x[j := 0.0];
    DotUpdate(t.rows[i], x, j, 0.0, n);
    forall k | 0 <= k < n ensures t.rows[i][k] == 0.0 || x'[k] == 0.0 {
      if k != j && k in t.basis {
        var l :| 0 <= l < |t.basis| && t.basis[l] == k;
        assert t.rows[i][t.basis[l]] == 0.0;
      }
    }
    DotZeros(t.rows[i], x', n);
  }

  // ---------------------------------------------------------------- reduced costs

  // The sum of cost[basis[i]] * rows[i][j] over i < k; column n is the right-hand side.
  function Priced(t: Tableau, cost: seq<real>, n: nat, j: nat, k: nat): real
    requires Shaped(t, n) && |cost| == n && j <= n && k <= |t.rows|
  {
    if k == 0 then 0.0 else Priced(t, cost, n, j, k - 1) + cost[t.basis[k - 1]] * t.rows[k - 1][j]
  }

  function Reduced(t: Tableau, cost: seq<real>, n: nat, j: nat): real
    requires Shaped(t, n) && |cost| == n && j < n
  {
    cost[j] - Priced(t, cost, n, j, |t.rows|)
  }

  function ReducedRow(t: Tableau, cost: seq<real>, n: nat): (r: seq<real>)
    requires Shaped(t, n) && |cost| == n
    ensures |r| == n && forall j :: 0 <= j < n ==> r[j] == Reduced(t, cost, n, j)
  {
    seq(n, j requires 0 <= j < n => Reduced(t, cost, n, j))
  }

  // The objective value of the basic solution, read off the right-hand sides.
  function Value(t: Tableau, cost: seq<real>, n: nat): real
    requires Shaped(t, n) && |cost| == n
  {
    Priced(t, cost, n, n, |t.rows|)
  }

  function PricedRow(t: Tableau, cost: seq<real>, n: nat, k: nat): (r: seq<real>)
    requires Shaped(t, n) && |cost| == n && k <= |t.rows|
    ensures |r| == n + 1
  {
    seq(n + 1, j requires 0 <= j <= n => Priced(t, cost, n, j, k))
  }

  lemma {:induction false} PricedRowDot(t: Tableau, cost: seq<real>, n: nat, k: nat, x: seq<real>)
    requires Shaped(t, n) && |cost| == n && k <= |t.rows| && |x| == n
    requires forall i :: 0 <= i < k ==> Dot(t.rows[i], x, n) == t.rows[i][n]
    ensures Dot(PricedRow(t, cost, n, k), x, n) == Priced(t, cost, n, n, k)
  {
    if k == 0 {
      DotZeros(PricedRow(t, cost, n, 0), x, n);
    } else {
      PricedRowDot(t, cost, n, k - 1, x);
      PricedRowStep(t, cost, n, k, x);
      assert Dot(t.rows[k - 1], x, n) == t.rows[k - 1][n];
    }
  }

  lemma AddedRowDot(after: seq<real>, before: seq<real>, c: real, row: seq<real>, x: seq<real>, n: nat)
    requires |after| == |before| == |row| == n + 1 && |x| == n
    requires forall j :: 0 <= j < n ==> after[j] == before[j] + c * row[j]
    ensures Dot(after, x, n) == Dot(before, x, n) + c * Dot(row, x, n)
  {
    DotAddScaled(before, c, row, x, n);
    DotAgrees(after, AddScaled(before, c, row), x, x, n);
  }

  lemma PricedRowStep(t: Tableau, cost: seq<real>, n: nat, k: nat, x: seq<real>)
    requires Shaped(t, n) && |cost| == n && 0 < k <= |t.rows| && |x| == n
    ensures Dot(PricedRow(t, cost, n, k), x, n)
            == Dot(PricedRow(t, cost, n, k - 1), x, n) + cost[t.basis[k - 1]] * Dot(t.rows[k - 1], x, n)
  {
    AddedRowDot(PricedRow(t, cost, n, k), PricedRow(t, cost, n, k - 1), cost[t.basis[k - 1]], t.rows[k - 1], x, n);
  }

  // On every solution of the system the objective is the basic value plus what the
  // reduced costs charge: the identity all optimality arguments use.
  lemma ObjectiveIdentity(t: Tableau, cost: seq<real>, n: nat, x: seq<real>)
    requires Shaped(t, n) && |cost| == n && Solves(t, x, n)
    ensures Dot(cost, x, n) == Value(t, cost, n) + Dot(ReducedRow(t, cost, n), x, n)
  {
    var m := |t.rows|;
    PricedRowDot(t, cost, n, m, x);
    SubtractedDot(cost, PricedRow(t, cost, n, m), ReducedRow(t, cost, n), x, n);
  }

  lemma {:induction false} SubtractedDot(a: seq<real>, b: seq<real>, d: seq<real>, x: seq<real>, n: nat)
    requires n <= |a| && n <= |b| && n <= |d| && n <= |x| && forall j :: 0 <= j < n ==> d[j] == a[j] - b[j]
    ensures Dot(a, x, n) == Dot(b, x, n) + Dot(d, x, n)
  {
    if n > 0 {
      SubtractedDot(a, b, d, x, n - 1);
      assert a[n - 1] * x[n - 1] == (b[n - 1] + d[n - 1]) * x[n - 1];
    }
  }

  lemma {:induction false} PricedBasic(t: Tableau, cost: seq<real>, n: nat, l: nat, k: nat)
    requires Canonical(t, n) && |cost| == n && l < |t.basis| && k <= |t.rows|
    ensures Priced(t, cost, n, t.basis[l], k) == if l < k then cost[t.basis[l]] else 0.0
  {
    if k > 0 {
      PricedBasic(t, cost, n, l, k - 1);
      assert t.rows[k - 1][t.basis[l]] == if k - 1 == l then 1.0 else 0.0;
    }
  }

  lemma ReducedBasicZero(t: Tableau, cost: seq<real>, n: nat, j: nat)
    requires Canonical(t, n) && |cost| == n && j in t.basis
    ensures j < n && Reduced(t, cost, n, j) == 0.0
  {
    var l :| 0 <= l < |t.basis| && t.basis[l] == j;
    PricedBasic(t, cost, n, l, |t.rows|);
  }

  lemma BasicValue(t: Tableau, cost: seq<real>, n: nat)
    requires Canonical(t, n) && |cost| == n
    ensures Dot(cost, Basic(t, n), n) == Value(t, cost, n)
  {
    BasicSolves(t, n);
    ObjectiveIdentity(t, cost, n, Basic(t, n));
    var r := ReducedRow(t, cost, n);
    forall j | 0 <= j < n ensures r[j] == 0.0 || Basic(t, n)[j] == 0.0 {
      if j in t.basis {
        ReducedBasicZero(t, cost, n, j);
      }
    }
    DotZeros(r, Basic(t, n), n);
  }

  // No reduced cost below -eps: the basic solution beats every solution x >= 0 up to the slack.
  lemma NoEnteringColumnIsOptimal(t: Tableau, cost: seq<real>, n: nat, eps: real, x: seq<real>)
    requires Canonical(t, n) && |cost| == n
    requires forall j :: 0 <= j < n ==> ReducedRow(t, cost, n)[j] >= -eps
    requires Solves(t, x, n) && NonNegative(x)
    ensures Dot(cost, Basic(t, n), n) <= Dot(cost, x, n) + Slack(eps, x, n)
  {
    BasicValue(t, cost, n);
    ObjectiveIdentity(t, cost, n, x);
    DotAtLeast(ReducedRow(t, cost, n), x, eps, n);
  }

  // ---------------------------------------------------------------- moving along an entering column

  // The direction that raises column e by one unit and adjusts the basic columns.
  function Direction(t: Tableau, e: nat, n: nat): (d: seq<real>)
    requires Shaped(t, n) && e < n
    ensures |d| == n
  {
    Spread(t.basis, seq(|t.rows|, i requires 0 <= i < |t.rows| => -t.rows[i][e]), n, |t.basis|)[e := 1.0]
  }

  lemma DirectionAt(t: Tableau, e: nat, n: nat)
    requires Canonical(t, n) && e < n && e !in t.basis
    ensures Direction(t, e, n)[e] == 1.0
    ensures forall i :: 0 <= i < |t.basis| ==> Direction(t, e, n)[t.basis[i]] == -t.rows[i][e]
    ensures forall j :: 0 <= j < n && j != e && j !in t.basis ==> Direction(t, e, n)[j] == 0.0
    ensures forall i :: 0 <= i < |t.rows| ==> Dot(t.rows[i], Direction(t, e, n), n) == 0.0
  {
    var m := |t.basis|;
    var vals := seq(|t.rows|, i requires 0 <= i < |t.rows| => -t.rows[i][e]);
    var base := Spread(t.basis, vals, n, m);
    CanonicalDistinct(t, n);
    SpreadAt(t.basis, vals, n, m);
    assert t.basis[..m] == t.basis;
    forall i | 0 <= i < m ensures Dot(t.rows[i], Direction(t, e, n), n) == 0.0 {
      SpreadRow(t, vals, n, m, i);
      DotUpdate(t.rows[i], base, e, 1.0, n);
    }
  }

  lemma DotUnmoved(a: seq<real>, x: seq<real>, theta: real, d: seq<real>, n: nat)
    requires |a| >= n && |x| == |d| == n && Dot(a, d, n) == 0.0
    ensures Dot(a, AddScaled(x, theta, d), n) == Dot(a, x, n)
  {
    DotAddScaledRight(a, x, theta, d, n);
  }

  // Walking theta along the direction stays on the solution set ...
  lemma SolvesAlong(t: Tableau, e: nat, n: nat, theta: real)
    requires Canonical(t, n) && e < n && e !in t.basis
    ensures Solves(t, AddScaled(Basic(t, n), theta, Direction(t, e, n)), n)
  {
    BasicSolves(t, n);
    DirectionAt(t, e, n);
    forall i | 0 <= i < |t.rows|
      ensures Dot(t.rows[i], AddScaled(Basic(t, n), theta, Direction(t, e, n)), n) == t.rows[i][n]
    {
      DotUnmoved(t.rows[i], Basic(t, n), theta, Direction(t, e, n), n);
    }
  }

  // ... and changes the objective by theta times the reduced cost.
  lemma AlongDirection(t: Tableau, cost: seq<real>, e: nat, n: nat, theta: real)
    requires Canonical(t, n) && |cost| == n && e < n && e !in t.basis
    ensures Solves(t, AddScaled(Basic(t, n), theta, Direction(t, e, n)), n)
    ensures Dot(cost, AddScaled(Basic(t, n), theta, Direction(t, e, n)), n)
            == Value(t, cost, n) + theta * Reduced(t, cost, n, e)
  {
    SolvesAlong(t, e, n, theta);
    assert Dot(cost, Direction(t, e, n), n) == Reduced(t, cost, n, e) by {
      CostOfDirection(t, cost, e, n);
    }
    BasicValue(t, cost, n);
    DotAddScaledRight(cost, Basic(t, n), theta, Direction(t, e, n), n);
  }

  lemma CostOfDirection(t: Tableau, cost: seq<real>, e: nat, n: nat)
    requires Canonical(t, n) && |cost| == n && e < n && e !in t.basis
    ensures Dot(cost, Direction(t, e, n), n) == Reduced(t, cost, n, e)
  {
    var x, d, r := Basic(t, n), Direction(t, e, n), ReducedRow(t, cost, n);
    var y := AddScaled(x, 1.0, d);
    BasicSolves(t, n);
    SolvesAlong(t, e, n, 1.0);
    ObjectiveIdentity(t, cost, n, x);
    ObjectiveIdentity(t, cost, n, y);
    DotAddScaledRight(cost, x, 1.0, d, n);
    DotAddScaledRight(r, x, 1.0, d, n);
    ReducedAlong(t, cost, e, n);
  }

  // Basic columns cost nothing, so only the entering column is charged along its direction.
  lemma ReducedAlong(t: Tableau, cost: seq<real>, e: nat, n: nat)
    requires Canonical(t, n) && |cost| == n && e < n && e !in t.basis
    ensures Dot(ReducedRow(t, cost, n), Direction(t, e, n), n) == Reduced(t, cost, n, e)
  {
    var d, r := Direction(t, e, n), ReducedRow(t, cost, n);
    DirectionAt(t, e, n);
    var d' := d[e := 0.0];
    DotUpdate(r, d, e, 0.0, n);
    forall j | 0 <= j < n ensures r[j] == 0.0 || d'[j] == 0.0 {
      if j in t.basis {
        ReducedBasicZero(t, cost, n, j);
      }
    }
    DotZeros(r, d', n);
  }

  // A reduced cost of one tableau, priced with the reduced costs of another that has the
  // same solutions.
  lemma DirectionPrices(out: Tableau, into: Tableau, cost: seq<real>, e: nat, n: nat)
    requires Canonical(out, n) && Canonical(into, n) && |cost| == n && e < n && e !in out.basis
    requires forall x :: Solves(out, x, n) <==> Solves(into, x, n)
    ensures Reduced(out, cost, n, e) == Dot(ReducedRow(into, cost, n), Direction(out, e, n), n)
  {
    var x, d, r := Basic(out, n), Direction(out, e, n), ReducedRow(into, cost, n);
    var y := AddScaled(x, 1.0, d);
    BasicSolves(out, n);
    SolvesAlong(out, e, n, 1.0);
    assert Solves(into, x, n) && Solves(into, y, n);
    ObjectiveIdentity(into, cost, n, x);
    ObjectiveIdentity(into, cost, n, y);
    CostOfDirection(out, cost, e, n);
    DotAddScaledRight(cost, x, 1.0, d, n);
    DotAddScaledRight(r, x, 1.0, d, n);
  }
}
