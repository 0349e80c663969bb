// Mapping, filtering, flattening and counting over sequences.

module Sequences {

  function Map<T, U>(f: T -> U, xs: seq<T>): (r: seq<U>)
    ensures |r| == |xs| && forall i :: 0 <= i < |xs| ==> r[i] == f(xs[i])
  {
    seq(|xs|, i requires 0 <= i < |xs| => f(xs[i]))
  }

  function Filter<T(!new)>(f: T -> bool, xs: seq<T>): (r: seq<T>)
    ensures forall x :: x in r <==> x in xs && f(x)
  {
    if |xs| == 0 then []
    else
      var n := |xs| - 1;
      Filter(f, xs[..n]) + if f(xs[n]) then [xs[n]] else []
  }

  function FlatMap<T, U>(f: T -> seq<U>, xs: seq<T>): seq<U> {
    if |xs| == 0 then []
    else
      var n := |xs| - 1;
      FlatMap(f, xs[..n]) + f(xs[n])
  }

  function Count<T>(f: T -> bool, xs: seq<T>): nat {
    if |xs| == 0 then 0
    else
      var n := |xs| - 1;
      Count(f, xs[..n]) + if f(xs[n]) then 1 else 0
  }

  ghost predicate Free<T>(bad: T -> bool, xs: seq<T>) {
    forall i :: 0 <= i < |xs| ==> !bad(xs[i])
  }

  lemma FreeSplit<T>(bad: T -> bool, xs: seq<T>, ys: seq<T>)
    ensures Free(bad, xs + ys) <==> Free(bad, xs) && Free(bad, ys)
  {
    if Free(bad, xs + ys) {
      assert forall i :: 0 <= i < |xs| ==> xs[i] == (xs + ys)[i];
      assert forall i :: 0 <= i < |ys| ==> ys[i] == (xs + ys)[|xs| + i];
    }
  }

  lemma {:induction false} FilterEmpty<T(!new)>(f: T -> bool, xs: seq<T>)
    ensures Filter(f, xs) == [] <==> Free(f, xs)
  {
    if |xs| > 0 {
      var n := |xs| - 1;
      FilterEmpty(f, xs[..n]);
      FreeSplit(f, xs[..n], [xs[n]]);
      assert xs == xs[..n] + [xs[n]];
    }
  }

  lemma {:induction false} FilterCounts<T(!new)>(f: T -> bool, xs: seq<T>)
    ensures |Filter(f, xs)| == Count(f, xs)
  {
    if |xs| > 0 {
      FilterCounts(f, xs[..|xs| - 1]);
    }
  }

  lemma {:induction false} FlatMapFree<T, U>(f: T -> seq<U>, bad: U -> bool, xs: seq<T>)
    ensures Free(bad, FlatMap(f, xs)) <==> forall i :: 0 <= i < |xs| ==> Free(bad, f(xs[i]))
  {
    if |xs| > 0 {
      var n := |xs| - 1;
      FlatMapFree(f, bad, xs[..n]);
      FreeSplit(bad, FlatMap(f, xs[..n]), f(xs[n]));
      assert forall i :: 0 <= i < n ==> xs[..n][i] == xs[i];
    }
  }

  lemma {:induction false} FlatMapEmpty<T, U>(f: T -> seq<U>, xs: seq<T>)
    ensures FlatMap(f, xs) == [] <==> forall i :: 0 <= i < |xs| ==> f(xs[i]) == []
  {
    if |xs| > 0 {
      var n := |xs| - 1;
      FlatMapEmpty(f, xs[..n]);
      assert forall i :: 0 <= i < n ==> xs[..n][i] == xs[i];
    }
  }

  lemma {:induction false} CountSplit<T>(f: T -> bool, xs: seq<T>, ys: seq<T>)
    ensures Count(f, xs + ys) == Count(f, xs) + Count(f, ys)
  {
    if |ys| == 0 {
      assert xs + ys == xs;
    } else {
      var n := |ys| - 1;
      CountSplit(f, xs, ys[..n]);
      assert (xs + ys)[..|xs| + n] == xs + ys[..n];
    }
  }

  lemma CountOne<T>(f: T -> bool, x: T)
    ensures Count(f, [x]) == if f(x) then 1 else 0
  {
    assert [x][..0] == [];
  }

  lemma CountSnoc<T>(f: T -> bool, xs: seq<T>, x: T)
    ensures Count(f, xs + [x]) == Count(f, xs) + if f(x) then 1 else 0
  {
    assert (xs + [x])[..|xs|] == xs;
  }

  lemma {:induction false} CountAll<T>(f: T -> bool, xs: seq<T>, all: bool)
    requires forall i :: 0 <= i < |xs| ==> f(xs[i]) == all
    ensures Count(f, xs) == if all then |xs| else 0
  {
    if |xs| > 0 {
      CountAll(f, xs[..|xs| - 1], all);
    }
  }

  ghost predicate CountsAlike<T, U, V>(f: T -> seq<U>, p: U -> bool, g: T -> seq<V>, q: V -> bool, xs: seq<T>) {
    forall i :: 0 <= i < |xs| ==> Count(p, f(xs[i])) == Count(q, g(xs[i]))
  }

  ghost predicate CountsAs<T, U>(f: T -> seq<U>, p: U -> bool, q: T -> bool, xs: seq<T>) {
    forall i :: 0 <= i < |xs| ==> Count(p, f(xs[i])) == if q(xs[i]) then 1 else 0
  }

  // Counts that match item by item match on the whole.
  lemma {:induction false} FlatMapCounts<T, U, V>(f: T -> seq<U>, p: U -> bool, g: T -> seq<V>, q: V -> bool, xs: seq<T>)
    requires CountsAlike(f, p, g, q, xs)
    ensures Count(p, FlatMap(f, xs)) == Count(q, FlatMap(g, xs))
  {
    if |xs| > 0 {
      var n := |xs| - 1;
      assert forall i :: 0 <= i < n ==> xs[..n][i] == xs[i];
      FlatMapCounts(f, p, g, q, xs[..n]);
      CountSplit(p, FlatMap(f, xs[..n]), f(xs[n]));
      CountSplit(q, FlatMap(g, xs[..n]), g(xs[n]));
    }
  }

  lemma {:induction false} FlatMapCountIs<T, U>(f: T -> seq<U>, p: U -> bool, q: T -> bool, xs: seq<T>)
    requires CountsAs(f, p, q, xs)
    ensures Count(p, FlatMap(f, xs)) == Count(q, xs)
  {
    if |xs| > 0 {
      var n := |xs| - 1;
      assert forall i :: 0 <= i < n ==> xs[..n][i] == xs[i];
      FlatMapCountIs(f, p, q, xs[..n]);
      CountSplit(p, FlatMap(f, xs[..n]), f(xs[n]));
    }
  }

  function Fold<A, T>(f: (A, T) -> A, a: A, xs: seq<T>): A {
    if |xs| == 0 then a
    else
      var n := |xs| - 1;
      f(Fold(f, a, xs[..n]), xs[n])
  }

  lemma {:induction false} FoldSplit<A, T>(f: (A, T) -> A, a: A, xs: seq<T>, ys: seq<T>)
    ensures Fold(f, a, xs + ys) == Fold(f, Fold(f, a, xs), ys)
  {
    if |ys| == 0 {
      assert xs + ys == xs;
    } else {
      var n := |ys| - 1;
      FoldSplit(f, a, xs, ys[..n]);
      assert (xs + ys)[..|xs| + n] == xs + ys[..n];
    }
  }

  lemma MapSplit<T, U>(f: T -> U, xs: seq<T>, ys: seq<T>)
    ensures Map(f, xs + ys) == Map(f, xs) + Map(f, ys)
  {
  }

  lemma TakenOut<T>(ys: seq<T>, j: nat)
    requires j < |ys|
    ensures multiset(ys) == multiset(ys[..j] + ys[j + 1..]) + multiset{ys[j]}
  {
    assert ys == ys[..j] + [ys[j]] + ys[j + 1..];
  }

  lemma MapTakenOut<T, U>(f: T -> U, ys: seq<T>, j: nat)
    requires j < |ys|
    ensures multiset(Map(f, ys)) == multiset(Map(f, ys[..j] + ys[j + 1..])) + multiset{f(ys[j])}
  {
    MapSplit(f, ys[..j], ys[j + 1..]);
    TakenOut(Map(f, ys), j);
    assert Map(f, ys)[..j] == Map(f, ys[..j]) && Map(f, ys)[j + 1..] == Map(f, ys[j + 1..]);
  }

  // Mapping the same items in another order gives the same values in another order.
  lemma {:induction false} MapIgnoresOrder<T, U>(f: T -> U, xs: seq<T>, ys: seq<T>)
    requires multiset(xs) == multiset(ys)
    ensures multiset(Map(f, xs)) == multiset(Map(f, ys))
    decreases |xs|
  {
    assert |xs| == |multiset(xs)| == |ys|;
    if |xs| > 0 {
      var n := |xs| - 1;
      assert xs[n] in multiset(ys);
      var j :| 0 <= j < |ys| && ys[j] == xs[n];
      TakenOut(xs, n);
      TakenOut(ys, j);
      var a, b := xs[..n] + xs[n + 1..], ys[..j] + ys[j + 1..];
      assert multiset(a) == multiset(xs) - multiset{xs[n]} && multiset(b) == multiset(ys) - multiset{xs[n]};
      MapIgnoresOrder(f, a, b);
      MapTakenOut(f, xs, n);
      MapTakenOut(f, ys, j);
    }
  }

  lemma HasElement<T(!new)>(xs: seq<T>)
    ensures |xs| == 0 || exists x :: x in xs
  {
    if |xs| > 0 {
      assert xs[0] in xs;
    }
  }

  lemma FilterSnoc<T(!new)>(f: T -> bool, xs: seq<T>, x: T)
    ensures Filter(f, xs + [x]) == Filter(f, xs) + if f(x) then [x] else []
  {
    assert (xs + [x])[..|xs|] == xs;
  }

  lemma Regroup<T>(a: seq<T>, b: seq<T>, c: seq<T>)
    ensures (a + b) + c == a + (b + c)
  {
  }

  lemma {:induction false} FilterSplit<T(!new)>(f: T -> bool, xs: seq<T>, ys: seq<T>)
    ensures Filter(f, xs + ys) == Filter(f, xs) + Filter(f, ys)
    decreases |ys|
  {
    if |ys| == 0 {
      assert xs + ys == xs;
    } else {
      FilterSplit(f, xs, ys[..|ys| - 1]);
      FilterSplitLast(f, xs, ys[..|ys| - 1], ys[|ys| - 1], ys);
    }
  }

  lemma FilterSplitLast<T(!new)>(f: T -> bool, xs: seq<T>, front: seq<T>, y: T, ys: seq<T>)
    requires ys == front + [y]
    requires Filter(f, xs + front) == Filter(f, xs) + Filter(f, front)
    ensures Filter(f, xs + ys) == Filter(f, xs) + Filter(f, ys)
  {
    FilterSnoc(f, xs + front, y);
    FilterSnoc(f, front, y);
    Regroup(xs, front, [y]);
    Regroup(Filter(f, xs), Filter(f, front), if f(y) then [y] else []);
  }

  lemma FilterOne<T(!new)>(f: T -> bool, xs: seq<T>, keep: bool)
    requires |xs| <= 1 && forall x :: x in xs ==> f(x) == keep
    ensures Filter(f, xs) == if keep then xs else []
  {
    if |xs| == 1 {
      assert xs[0] in xs && xs[..0] == [];
    }
  }
}
