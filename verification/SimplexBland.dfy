// With tolerance 0 the lowest-index rule never comes back to a basis, so a phase stops
// by itself after fewer pivots than there are bases.

module SimplexBland {
  import opened Vectors
  import opened SimplexTableau
  import opened SimplexRun
  import opened Counting
  import opened Iteration

  function BasisSet(t: Tableau): set<nat> {
    set j | j in t.basis
  }

  ghost predicate Healthy(t: Tableau, n: nat) {
    Canonical(t, n) && RhsNonNegative(t, n)
  }

  // Row p has the smallest ratio of column s, ties to the lowest basic column.
  ghost predicate LowestLeaving(t: Tableau, n: nat, s: nat, p: nat)
    requires Shaped(t, n)
  {
    && s < n && p < |t.rows| && t.rows[p][s] > 0.0
    && forall i :: 0 <= i < |t.rows| && t.rows[i][s] > 0.0 ==>
                     var (best, ratio) := (t.rows[p][n] / t.rows[p][s], t.rows[i][n] / t.rows[i][s]);
                     best < ratio || (best == ratio && t.basis[p] <= t.basis[i])
  }

  // Column e is the lowest one with a negative reduced cost.
  ghost predicate LowestEntering(t: Tableau, cost: seq<real>, n: nat, e: nat)
    requires Shaped(t, n) && |cost| == n
  {
    && e < n && ReducedRow(t, cost, n)[e] < 0.0
    && forall j :: 0 <= j < e ==> ReducedRow(t, cost, n)[j] >= 0.0
  }

  // t' is the tableau the exact rule moves to from t.
  ghost predicate MovesTo(t: Tableau, cost: seq<real>, n: nat, e: nat, r: nat, t': Tableau) {
    && Healthy(t, n) && |cost| == n
    && LowestEntering(t, cost, n, e) && LowestLeaving(t, n, e, r)
    && t' == Pivot(t, r, e, n)
  }

  lemma ChosenMove(t: Tableau, cost: seq<real>, n: nat, e: nat, r: nat)
    requires Healthy(t, n) && |cost| == n && Choose(t, cost, n, 0.0) == Swap(e, r)
    ensures MovesTo(t, cost, n, e, r, Pivot(t, r, e, n)) && Healthy(Pivot(t, r, e, n), n)
  {
    ExactMove(t, cost, n);
    PivotKeepsCanonical(t, r, e, n);
    ExactMoveKeepsRhs(t, cost, n);
  }

  // The tableaux one exact phase goes through, and the columns and rows it chose.
  datatype Trace = Trace(v: seq<Tableau>, enter: seq<nat>, leave: seq<nat>)

  ghost predicate IsRun(h: Trace, cost: seq<real>, n: nat) {
    && |cost| == n && |h.v| == |h.enter| + 1 == |h.leave| + 1
    && (forall k :: 0 <= k < |h.v| ==> Healthy(h.v[k], n))
    && forall k :: 0 <= k < |h.enter| ==> MovesTo(h.v[k], cost, n, h.enter[k], h.leave[k], h.v[k + 1])
  }

  // What every move does to the solutions, the objective and the basic solution.
  ghost predicate Settles(t: Tableau, cost: seq<real>, n: nat, t': Tableau)
    requires Shaped(t, n) && Shaped(t', n) && |cost| == n
  {
    && (forall x :: Solves(t', x, n) <==> Solves(t, x, n))
    && Value(t', cost, n) <= Value(t, cost, n)
    && (Value(t', cost, n) == Value(t, cost, n) ==> Basic(t', n) == Basic(t, n))
  }

  lemma MoveSettles(t: Tableau, cost: seq<real>, n: nat, e: nat, r: nat, t': Tableau)
    requires MovesTo(t, cost, n, e, r, t')
    ensures Canonical(t', n) && t'.basis == t.basis[r := e] && e !in t.basis
    ensures Settles(t, cost, n, t')
  {
    assert e !in t.basis by {
      EnteringNotBasic(t, cost, n, e);
    }
    PivotKeeps(t, r, e, n);
    Descends(t, cost, r, e, n);
  }

  ghost predicate Settled(v: seq<Tableau>, cost: seq<real>, n: nat) {
    && |cost| == n
    && (forall k :: 0 <= k < |v| ==> Canonical(v[k], n))
    && forall k :: 0 <= k < |v| - 1 ==> Settles(v[k], cost, n, v[k + 1])
  }

  lemma RunSettles(h: Trace, cost: seq<real>, n: nat)
    requires IsRun(h, cost, n)
    ensures Settled(h.v, cost, n)
  {
    forall k | 0 <= k < |h.v| - 1 ensures Settles(h.v[k], cost, n, h.v[k + 1]) {
      MoveSettles(h.v[k], cost, n, h.enter[k], h.leave[k], h.v[k + 1]);
    }
  }

  // A pivot on a negative reduced cost never raises the objective, and one that does not
  // lower it leaves the basic solution where it is.
  lemma Descends(t: Tableau, cost: seq<real>, r: nat, e: nat, n: nat)
    requires Healthy(t, n) && |cost| == n && e < n && r < |t.rows| && e !in t.basis
    requires t.rows[r][e] > 0.0 && ReducedRow(t, cost, n)[e] < 0.0
    ensures Canonical(Pivot(t, r, e, n), n)
    ensures Value(Pivot(t, r, e, n), cost, n) <= Value(t, cost, n)
    ensures Value(Pivot(t, r, e, n), cost, n) == Value(t, cost, n) ==> Basic(Pivot(t, r, e, n), n) == Basic(t, n)
  {
    var ratio, reduced := t.rows[r][n] / t.rows[r][e], Reduced(t, cost, n, e);
    PivotMoves(t, r, e, n);
    PivotValue(t, cost, r, e, n);
    assert ratio * reduced <= 0.0;
    if ratio * reduced == 0.0 {
      assert ratio == 0.0;
      AddScaledZero(Basic(t, n), Direction(t, e, n));
    }
  }

  lemma AddScaledZero(x: seq<real>, d: seq<real>)
    requires |x| == |d|
    ensures AddScaled(x, 0.0, d) == x
  {
  }

  // ---------------------------------------------------------------- along a run

  lemma {:induction false} SameSolutions(v: seq<Tableau>, cost: seq<real>, n: nat, a: nat, b: nat)
    requires Settled(v, cost, n) && a <= b < |v|
    ensures forall x :: Solves(v[b], x, n) <==> Solves(v[a], x, n)
    ensures Value(v[b], cost, n) <= Value(v[a], cost, n)
    decreases b
  {
    if a < b {
      SameSolutions(v, cost, n, a, b - 1);
      assert Settles(v[b - 1], cost, n, v[(b - 1) + 1]);
    }
  }

  lemma ValueBetween(v: seq<Tableau>, cost: seq<real>, n: nat, a: nat, k: nat, b: nat)
    requires Settled(v, cost, n) && a <= k <= b < |v| && Value(v[a], cost, n) == Value(v[b], cost, n)
    ensures Value(v[k], cost, n) == Value(v[a], cost, n)
  {
    SameSolutions(v, cost, n, a, k);
    SameSolutions(v, cost, n, k, b);
  }

  // While the objective stands still, so does the basic solution.
  lemma {:induction false} StalledRun(v: seq<Tableau>, cost: seq<real>, n: nat, a: nat, k: nat, b: nat)
    requires Settled(v, cost, n) && a <= k <= b < |v| && Value(v[a], cost, n) == Value(v[b], cost, n)
    ensures Basic(v[k], n) == Basic(v[a], n)
    decreases k
  {
    if a < k {
      StalledRun(v, cost, n, a, k - 1, b);
      ValueBetween(v, cost, n, a, k - 1, b);
      ValueBetween(v, cost, n, a, k, b);
      assert Settles(v[k - 1], cost, n, v[(k - 1) + 1]);
    }
  }

  // Between a tableau with t basic and a later one without it, some move takes t out.
  lemma {:induction false} TakenOut(v: seq<Tableau>, a: nat, b: nat, t: nat) returns (k: nat)
    requires a <= b < |v| && t in v[a].basis && t !in v[b].basis
    ensures a <= k < b && t in v[k].basis && t !in v[k + 1].basis
    decreases b
  {
    if t in v[b - 1].basis {
      k := b - 1;
    } else {
      k := TakenOut(v, a, b - 1, t);
    }
  }

  lemma {:induction false} TakenIn(v: seq<Tableau>, a: nat, b: nat, t: nat) returns (k: nat)
    requires a <= b < |v| && t !in v[a].basis && t in v[b].basis
    ensures a <= k < b && t !in v[k].basis && t in v[k + 1].basis
    decreases b
  {
    if t !in v[b - 1].basis {
      k := b - 1;
    } else {
      k := TakenIn(v, a, b - 1, t);
    }
  }

  // ---------------------------------------------------------------- the contradiction

  // Column `top` leaves `out` while s enters it, and enters `into`; both tableaux have the
  // same solutions and the same basic solution, and every column that changes sides between
  // them is at most `top`.
  ghost predicate CyclePair(out: Tableau, into: Tableau, cost: seq<real>, n: nat, s: nat, p: nat, top: nat) {
    && Healthy(out, n) && Healthy(into, n) && |cost| == n && Basic(out, n) == Basic(into, n)
    && LowestLeaving(out, n, s, p) && s !in out.basis && out.basis[p] == top && s < top
    && LowestEntering(into, cost, n, top) && top !in into.basis
    && forall u :: u in out.basis && u !in into.basis ==> u <= top
  }

  // The lowest-index rule cannot have made both choices: s had no reason to enter.
  lemma NoCycleCore(out: Tableau, into: Tableau, cost: seq<real>, n: nat, s: nat, p: nat, top: nat)
    requires CyclePair(out, into, cost, n, s, p, top)
    requires forall x :: Solves(out, x, n) <==> Solves(into, x, n)
    ensures ReducedRow(out, cost, n)[s] >= 0.0
  {
    DirectionPrices(out, into, cost, s, n);
    var r, d := ReducedRow(into, cost, n), Direction(out, s, n);
    forall j | 0 <= j < n ensures r[j] * d[j] >= 0.0 {
      CycleTerm(out, into, cost, n, s, p, top, j);
    }
    DotNonNegative(r, d, n);
  }

  lemma CycleTerm(out: Tableau, into: Tableau, cost: seq<real>, n: nat, s: nat, p: nat, top: nat, j: nat)
    requires CyclePair(out, into, cost, n, s, p, top) && j < n
    ensures ReducedRow(into, cost, n)[j] * Direction(out, s, n)[j] >= 0.0
  {
    var reduced, move := ReducedRow(into, cost, n)[j], Direction(out, s, n)[j];
    if j == s {
      assert move == 1.0 by {
        DirectionAt(out, s, n);
      }
    } else if j !in out.basis {
      assert move == 0.0 by {
        DirectionAt(out, s, n);
      }
    } else if j in into.basis {
      ReducedBasicZero(into, cost, n, j);
    } else {
      SwitchingTerm(out, into, cost, n, s, p, top, j);
    }
    SignOfProduct(reduced, move);
  }

  // A column basic in `out` only: the direction moves it with the sign of its reduced cost.
  lemma SwitchingTerm(out: Tableau, into: Tableau, cost: seq<real>, n: nat, s: nat, p: nat, top: nat, j: nat)
    requires CyclePair(out, into, cost, n, s, p, top) && j in out.basis && j !in into.basis
    ensures j < n
    ensures if j == top then ReducedRow(into, cost, n)[j] <= 0.0 && Direction(out, s, n)[j] <= 0.0
            else ReducedRow(into, cost, n)[j] >= 0.0 && Direction(out, s, n)[j] >= 0.0
  {
    var i :| 0 <= i < |out.basis| && out.basis[i] == j;
    assert Direction(out, s, n)[j] == -out.rows[i][s] by {
      DirectionAt(out, s, n);
    }
    if j == top {
      CanonicalDistinct(out, n);
    } else {
      EmptyRowDoesNotBlock(out, into, s, n, p, i);
    }
  }

  lemma SignOfProduct(a: real, b: real)
    ensures (a >= 0.0 && b >= 0.0) || (a <= 0.0 && b <= 0.0) ==> a * b >= 0.0
    ensures a == 0.0 || b == 0.0 ==> a * b == 0.0
  {
  }

  // Row i holds a column below the leaving one that is 0 in the common basic solution, and
  // so is the leaving one: had its coefficient been positive, row i would have been chosen.
  lemma EmptyRowDoesNotBlock(out: Tableau, into: Tableau, s: nat, n: nat, p: nat, i: nat)
    requires Healthy(out, n) && Healthy(into, n) && Basic(out, n) == Basic(into, n)
    requires s < n && p < |out.rows| && i < |out.rows| && out.rows[p][s] > 0.0
    requires out.basis[p] !in into.basis && out.basis[i] !in into.basis && out.basis[i] < out.basis[p]
    requires LowestLeaving(out, n, s, p)
    ensures out.rows[i][s] <= 0.0
  {
    BasicSolves(out, n);
    BasicSolves(into, n);
    assert Basic(out, n)[out.basis[p]] == out.rows[p][n] == 0.0;
    assert Basic(out, n)[out.basis[i]] == out.rows[i][n] == 0.0;
    ZeroRatio(out.rows[p][s]);
    if out.rows[i][s] > 0.0 {
      ZeroRatio(out.rows[i][s]);
      assert false;
    }
  }

  lemma ZeroRatio(a: real)
    requires a > 0.0
    ensures 0.0 / a == 0.0
  {
  }

  // ---------------------------------------------------------------- no basis twice

  ghost predicate Fickle(v: seq<Tableau>, a: nat, b: nat, j: nat)
    requires a <= b < |v|
  {
    && (exists k :: a <= k <= b && j in v[k].basis)
    && (exists k :: a <= k <= b && j !in v[k].basis)
  }

  lemma LargestFickle(v: seq<Tableau>, a: nat, b: nat, e: nat, n: nat) returns (top: nat)
    requires a < b < |v| && e < n && Fickle(v, a, b, e)
    ensures top < n && Fickle(v, a, b, top)
    ensures forall j :: top < j < n ==> !Fickle(v, a, b, j)
  {
    top := e;
    var j := e + 1;
    while j < n
      invariant e < j <= n && top < j
      invariant Fickle(v, a, b, top)
      invariant forall i :: top < i < j ==> !Fickle(v, a, b, i)
    {
      if Fickle(v, a, b, j) {
        top := j;
      }
      j := j + 1;
    }
  }

  lemma FickleMoves(v: seq<Tableau>, a: nat, b: nat, t: nat) returns (k: nat, l: nat)
    requires a <= b < |v| && Fickle(v, a, b, t) && (t in v[a].basis <==> t in v[b].basis)
    ensures a <= k < b && t in v[k].basis && t !in v[k + 1].basis
    ensures a <= l < b && t !in v[l].basis && t in v[l + 1].basis
  {
    if t in v[a].basis {
      var mid :| a <= mid <= b && t !in v[mid].basis;
      k := TakenOut(v, a, mid, t);
      l := TakenIn(v, mid, b, t);
    } else {
      var mid :| a <= mid <= b && t in v[mid].basis;
      l := TakenIn(v, a, mid, t);
      k := TakenOut(v, mid, b, t);
    }
  }

  lemma MoveAt(h: Trace, cost: seq<real>, n: nat, k: nat)
    requires IsRun(h, cost, n) && k < |h.enter|
    ensures h.leave[k] < |h.v[k].basis| && h.enter[k] < n
    ensures h.enter[k] !in h.v[k].basis && h.enter[k] in h.v[k + 1].basis
    ensures h.v[k + 1].basis == h.v[k].basis[h.leave[k] := h.enter[k]]
  {
    MoveSettles(h.v[k], cost, n, h.enter[k], h.leave[k], h.v[k + 1]);
    assert h.v[k + 1].basis[h.leave[k]] == h.enter[k];
  }

  // No basis is visited twice.
  lemma NoBasisTwice(h: Trace, cost: seq<real>, n: nat, a: nat, b: nat)
    requires IsRun(h, cost, n) && a < b < |h.v|
    ensures BasisSet(h.v[a]) != BasisSet(h.v[b])
  {
    if BasisSet(h.v[a]) == BasisSet(h.v[b]) {
      RunSettles(h, cost, n);
      SameEnds(h.v, cost, n, a, b);
      MoveAt(h, cost, n, a);
      var top := LargestFickle(h.v, a, b, h.enter[a], n);
      assert top in h.v[a].basis <==> top in h.v[b].basis by {
        assert top in BasisSet(h.v[a]) <==> top in BasisSet(h.v[b]);
      }
      var k, l := FickleMoves(h.v, a, b, top);
      CycleFound(h, cost, n, a, b, top, k, l);
      NoCycleCore(h.v[k], h.v[l], cost, n, h.enter[k], h.leave[k], top);
      assert false;
    }
  }

  // The same basis at both ends: the objective cannot have moved in between.
  lemma SameEnds(v: seq<Tableau>, cost: seq<real>, n: nat, a: nat, b: nat)
    requires Settled(v, cost, n) && a < b < |v| && BasisSet(v[a]) == BasisSet(v[b])
    ensures Value(v[a], cost, n) == Value(v[b], cost, n)
  {
    SameSolutions(v, cost, n, a, b);
    BasicSolves(v[a], n);
    var x := Basic(v[a], n);
    forall j | 0 <= j < n && j !in v[b].basis ensures x[j] == 0.0 {
      assert j !in BasisSet(v[b]);
      assert j !in BasisSet(v[a]);
    }
    BasicUnique(v[b], x, n);
    BasicValue(v[a], cost, n);
    BasicValue(v[b], cost, n);
  }

  lemma CycleFound(h: Trace, cost: seq<real>, n: nat, a: nat, b: nat, top: nat, k: nat, l: nat)
    requires IsRun(h, cost, n) && Settled(h.v, cost, n) && a < b < |h.v|
    requires Value(h.v[a], cost, n) == Value(h.v[b], cost, n)
    requires top < n && forall j :: top < j < n ==> !Fickle(h.v, a, b, j)
    requires a <= k < b && top in h.v[k].basis && top !in h.v[k + 1].basis
    requires a <= l < b && top !in h.v[l].basis && top in h.v[l + 1].basis
    ensures CyclePair(h.v[k], h.v[l], cost, n, h.enter[k], h.leave[k], top)
    ensures forall x :: Solves(h.v[k], x, n) <==> Solves(h.v[l], x, n)
  {
    var out, into, s, p := h.v[k], h.v[l], h.enter[k], h.leave[k];
    MoveAt(h, cost, n, k);
    MoveAt(h, cost, n, l);
    OnlyLeaves(out.basis, p, s, top);
    EnteringIs(into.basis, h.leave[l], h.enter[l], top);
    StalledRun(h.v, cost, n, a, k, b);
    StalledRun(h.v, cost, n, a, l, b);
    SameSolutions(h.v, cost, n, a, k);
    SameSolutions(h.v, cost, n, a, l);
    assert Fickle(h.v, a, b, s);
    forall u | u in out.basis && u !in into.basis ensures u <= top {
      assert Fickle(h.v, a, b, u);
    }
    assert MovesTo(out, cost, n, s, p, h.v[k + 1]);
    assert MovesTo(into, cost, n, top, h.leave[l], h.v[l + 1]);
  }

  lemma EnteringIs(basis: seq<nat>, p: nat, s: nat, top: nat)
    requires p < |basis| && top !in basis && top in basis[p := s]
    ensures s == top
  {
    var after := basis[p := s];
    forall i | 0 <= i < |basis| && i != p ensures after[i] != top {
      assert basis[i] in basis;
    }
  }

  // ---------------------------------------------------------------- a phase stops by itself

  // The turns of a phase that spends its fuel, as a run of the exact rule.
  lemma PhaseTrace(t: Tableau, cost: seq<real>, n: nat, fuel: nat) returns (h: Trace)
    requires Healthy(t, n) && |cost| == n && Run(t, cost, n, 0.0, fuel).1 == Capped
    ensures IsRun(h, cost, n) && h.v[0] == t && |h.v| == fuel + 1
  {
    var v := CappedTrace(Turns(cost, n, 0.0), t, fuel);
    var enter, leave := Choices(v, cost, n, fuel);
    h := Trace(v, enter, leave);
  }

  lemma {:induction false} Choices(v: seq<Tableau>, cost: seq<real>, n: nat, fuel: nat)
    returns (enter: seq<nat>, leave: seq<nat>)
    requires |cost| == n && |v| > fuel && Healthy(v[0], n)
    requires forall k :: 0 <= k < fuel ==> Turns(cost, n, 0.0)(v[k]) == Next(v[k + 1])
    ensures |enter| == |leave| == fuel
    ensures forall k :: 0 <= k <= fuel ==> Healthy(v[k], n)
    ensures forall k :: 0 <= k < fuel ==> MovesTo(v[k], cost, n, enter[k], leave[k], v[k + 1])
    decreases fuel
  {
    enter, leave := [], [];
    if fuel > 0 {
      enter, leave := Choices(v, cost, n, fuel - 1);
      var e, r := TurnMoves(v[fuel - 1], cost, n, v[fuel]);
      enter, leave := enter + [e], leave + [r];
    }
  }

  lemma TurnMoves(t: Tableau, cost: seq<real>, n: nat, t': Tableau) returns (e: nat, r: nat)
    requires Healthy(t, n) && |cost| == n && Turn(t, cost, n, 0.0) == Next(t')
    ensures MovesTo(t, cost, n, e, r, t') && Healthy(t', n)
  {
    var Swap(enter, row) := Choose(t, cost, n, 0.0);
    e, r := enter, row;
    ChosenMove(t, cost, n, e, r);
  }

  lemma {:induction false} RunRows(h: Trace, cost: seq<real>, n: nat, k: nat)
    requires IsRun(h, cost, n) && k < |h.v|
    ensures |h.v[k].rows| == |h.v[0].rows|
  {
    if k > 0 {
      RunRows(h, cost, n, k - 1);
      assert MovesTo(h.v[k - 1], cost, n, h.enter[k - 1], h.leave[k - 1], h.v[(k - 1) + 1]);
    }
  }

  lemma BasisSetSize(t: Tableau, n: nat)
    requires Canonical(t, n)
    ensures |BasisSet(t)| == |t.rows| && forall j :: j in BasisSet(t) ==> j < n
  {
    CanonicalDistinct(t, n);
    DistinctSize(t.basis);
  }

  // Fewer pivots than bases: with as many iterations as there are bases, the cap is never met.
  lemma PhaseStops(t: Tableau, cost: seq<real>, n: nat, fuel: nat)
    requires Healthy(t, n) && |cost| == n && fuel >= Binomial(n, |t.rows|)
    ensures Run(t, cost, n, 0.0, fuel).1 != Capped
  {
    if Run(t, cost, n, 0.0, fuel).1 == Capped {
      var h := PhaseTrace(t, cost, n, fuel);
      var sets := seq(|h.v|, k requires 0 <= k < |h.v| => BasisSet(h.v[k]));
      forall k | 0 <= k < |sets| ensures |sets[k]| == |t.rows| && forall j :: j in sets[k] ==> j < n {
        RunRows(h, cost, n, k);
        BasisSetSize(h.v[k], n);
      }
      forall a, b | 0 <= a < b < |sets| ensures sets[a] != sets[b] {
        NoBasisTwice(h, cost, n, a, b);
      }
      DistinctFamily(sets, n, |t.rows|);
    }
  }

  // ---------------------------------------------------------------- how a phase ends

  // How a phase that started from `start` ended.
  ghost predicate PhaseEnd(start: Tableau, end: Tableau, exit: Exit, cost: seq<real>, n: nat, eps: Tolerance, fuel: nat)
    requires Shaped(start, n) && |cost| == n
  {
    && Same(start, end, n, eps)
    && (exit == Optimal ==> forall j :: 0 <= j < n ==> ReducedRow(end, cost, n)[j] >= 0.0 - eps)
    && (exit == Unbounded ==>
          exists e :: 0 <= e < n && ReducedRow(end, cost, n)[e] < 0.0 - eps
                      && forall i :: 0 <= i < |end.rows| ==> end.rows[i][e] <= eps)
    && (eps == 0.0 && RhsNonNegative(start, n) && fuel >= Binomial(n, |start.rows|) ==> exit != Capped)
  }

  lemma HaltMeans(t: Tableau, cost: seq<real>, n: nat, eps: Tolerance)
    requires Shaped(t, n) && |cost| == n
    ensures Choose(t, cost, n, eps) == Halt(Optimal) ==>
              forall j :: 0 <= j < n ==> ReducedRow(t, cost, n)[j] >= 0.0 - eps
    ensures Choose(t, cost, n, eps) == Halt(Unbounded) ==>
              exists e :: 0 <= e < n && ReducedRow(t, cost, n)[e] < 0.0 - eps
                          && forall i :: 0 <= i < |t.rows| ==> t.rows[i][e] <= eps
  {
    if Choose(t, cost, n, eps) == Halt(Unbounded) {
      var e := Entering(t, cost, n, eps, 0);
      assert ReducedRow(t, cost, n)[e] < 0.0 - eps;
    }
  }

  lemma RunEnds(t: Tableau, cost: seq<real>, n: nat, eps: Tolerance, fuel: nat) returns (end: Tableau, exit: Exit)
    requires Canonical(t, n) && |cost| == n
    ensures (end, exit) == Run(t, cost, n, eps, fuel)
    ensures PhaseEnd(t, end, exit, cost, n, eps, fuel)
  {
    end, exit := Run(t, cost, n, eps, fuel).0, Run(t, cost, n, eps, fuel).1;
    RunKeeps(t, cost, n, eps, fuel);
    IterateStops(Turns(cost, n, eps), t, fuel);
    HaltMeans(end, cost, n, eps);
    if eps == 0.0 && RhsNonNegative(t, n) && fuel >= Binomial(n, |t.rows|) {
      PhaseStops(t, cost, n, fuel);
    }
  }

  // An optimal exit bounds the objective of every non-negative solution of the starting system.
  lemma OptimalExit(start: Tableau, end: Tableau, cost: seq<real>, n: nat, eps: Tolerance, fuel: nat, x: seq<real>)
    requires Shaped(start, n) && |cost| == n && PhaseEnd(start, end, Optimal, cost, n, eps, fuel)
    requires Solves(start, x, n) && NonNegative(x)
    ensures Dot(cost, Basic(end, n), n) <= Dot(cost, x, n) + Slack(eps, x, n)
  {
    NoEnteringColumnIsOptimal(end, cost, n, eps, x);
  }

  // An exact unbounded exit is right: the objective falls below every bound on the
  // non-negative solutions of the starting system.
  lemma UnboundedExit(start: Tableau, end: Tableau, cost: seq<real>, n: nat, fuel: nat, bound: real)
    returns (x: seq<real>)
    requires Shaped(start, n) && |cost| == n && PhaseEnd(start, end, Unbounded, cost, n, 0.0, fuel)
    requires RhsNonNegative(start, n)
    ensures Solves(start, x, n) && NonNegative(x) && Dot(cost, x, n) < bound
  {
    var e :| 0 <= e < n && ReducedRow(end, cost, n)[e] < 0.0
             && forall i :: 0 <= i < |end.rows| ==> end.rows[i][e] <= 0.0;
    assert Reduced(end, cost, n, e) == ReducedRow(end, cost, n)[e] < 0.0;
    assert RhsNonNegative(end, n);
    x := UnboundedRay(end, cost, e, n, bound);
  }
}
