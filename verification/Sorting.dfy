// Strict orders, the order of strings by character, and stable insertion sort.

module Sorting {

  // ---------------------------------------------------------------- strings

  predicate StrLess(a: string, b: string) {
    if |b| == 0 then false
    else if |a| == 0 then true
    else if a[0] != b[0] then a[0] < b[0]
    else StrLess(a[1..], b[1..])
  }

  // One string comes before another when it is a proper start of it, or has the smaller character where they first differ.
  ghost predicate ComesBefore(a: string, b: string) {
    exists k :: 0 <= k <= |a| && k < |b| && a[..k] == b[..k] && (k == |a| || a[k] < b[k])
  }

  lemma {:induction false} StrLessMeans(a: string, b: string)
    ensures StrLess(a, b) <==> ComesBefore(a, b)
  {
    if |a| > 0 && |b| > 0 && a[0] == b[0] {
      StrLessMeans(a[1..], b[1..]);
      if ComesBefore(a[1..], b[1..]) {
        var k :| 0 <= k <= |a| - 1 && k < |b| - 1 && a[1..][..k] == b[1..][..k] && (k == |a| - 1 || a[1..][k] < b[1..][k]);
        assert a[..k + 1] == [a[0]] + a[1..][..k] && b[..k + 1] == [b[0]] + b[1..][..k];
      }
      if ComesBefore(a, b) {
        var k :| 0 <= k <= |a| && k < |b| && a[..k] == b[..k] && (k == |a| || a[k] < b[k]);
        assert k > 0 && a[1..][..k - 1] == a[..k][1..] && b[1..][..k - 1] == b[..k][1..];
      }
    } else if |b| > 0 {
      assert a[..0] == b[..0];
      FirstDiffers(a, b);
    }
  }

  lemma FirstDiffers(a: string, b: string)
    requires |b| > 0 && (|a| == 0 || a[0] != b[0])
    ensures ComesBefore(a, b) <==> |a| == 0 || a[0] < b[0]
  {
    assert a[..0] == b[..0];
    forall k | 0 < k <= |a| && k < |b| ensures a[..k] != b[..k] {
      assert a[..k][0] != b[..k][0];
    }
  }

  lemma {:induction false} StrLessTransitive(a: string, b: string, c: string)
    requires StrLess(a, b) && StrLess(b, c)
    ensures StrLess(a, c)
  {
    if |a| > 0 && a[0] == b[0] && b[0] == c[0] {
      StrLessTransitive(a[1..], b[1..], c[1..]);
    }
  }

  lemma {:induction false} StrLessIrreflexive(a: string)
    ensures !StrLess(a, a)
  {
    if |a| > 0 {
      StrLessIrreflexive(a[1..]);
    }
  }

  lemma {:induction false} StrLessTotal(a: string, b: string)
    ensures a == b || StrLess(a, b) || StrLess(b, a)
  {
    if |a| > 0 && |b| > 0 && a[0] == b[0] {
      StrLessTotal(a[1..], b[1..]);
      assert a == [a[0]] + a[1..] && b == [b[0]] + b[1..];
    }
  }

  // ---------------------------------------------------------------- orders

  ghost predicate StrictOrder<T(!new)>(less: (T, T) -> bool) {
    && (forall x :: !less(x, x))
    && (forall x, y, z :: less(x, y) && less(y, z) ==> less(x, z))
  }

  // Any two items at different places are comparable, so none is equal to another.
  ghost predicate Comparable<T(!new)>(less: (T, T) -> bool, xs: seq<T>) {
    forall i, j :: 0 <= i < j < |xs| ==> less(xs[i], xs[j]) || less(xs[j], xs[i])
  }

  ghost predicate Ascending<T(!new)>(less: (T, T) -> bool, xs: seq<T>) {
    forall i, j :: 0 <= i < j < |xs| ==> less(xs[i], xs[j])
  }

  // ---------------------------------------------------------------- sorting

  // Before the first item that x comes before.
  function Insert<T>(less: (T, T) -> bool, x: T, xs: seq<T>): (r: seq<T>)
    ensures |r| == |xs| + 1
  {
    if |xs| == 0 then [x]
    else if less(x, xs[0]) then [x] + xs
    else [xs[0]] + Insert(less, x, xs[1..])
  }

  function Sort<T>(less: (T, T) -> bool, xs: seq<T>): (r: seq<T>)
    ensures |r| == |xs|
  {
    if |xs| == 0 then []
    else
      var n := |xs| - 1;
      Insert(less, xs[n], Sort(less, xs[..n]))
  }

  lemma {:induction false} InsertHolds<T>(less: (T, T) -> bool, x: T, xs: seq<T>)
    ensures multiset(Insert(less, x, xs)) == multiset(xs) + multiset{x}
  {
    if |xs| > 0 && !less(x, xs[0]) {
      InsertHolds(less, x, xs[1..]);
      assert xs == [xs[0]] + xs[1..];
    } else {
      assert [x] + xs == [x] + xs;
    }
  }

  lemma LastItem<T>(xs: seq<T>, n: nat)
    requires |xs| == n + 1
    ensures multiset(xs) == multiset(xs[..n]) + multiset{xs[n]}
  {
    assert xs == xs[..n] + [xs[n]];
  }

  lemma {:induction false} SortHolds<T>(less: (T, T) -> bool, xs: seq<T>)
    ensures multiset(Sort(less, xs)) == multiset(xs)
  {
    if |xs| > 0 {
      var n := |xs| - 1;
      SortHolds(less, xs[..n]);
      InsertHolds(less, xs[n], Sort(less, xs[..n]));
      LastItem(xs, n);
    }
  }

  ghost predicate ComparesWith<T(!new)>(less: (T, T) -> bool, x: T, xs: seq<T>) {
    forall i :: 0 <= i < |xs| ==> less(x, xs[i]) || less(xs[i], x)
  }

  lemma {:induction false} InsertAscends<T(!new)>(less: (T, T) -> bool, x: T, xs: seq<T>)
    requires StrictOrder(less) && Ascending(less, xs) && ComparesWith(less, x, xs)
    ensures Ascending(less, Insert(less, x, xs))
  {
    if |xs| > 0 && !less(x, xs[0]) {
      var rest := Insert(less, x, xs[1..]);
      InsertAscends(less, x, xs[1..]);
      InsertHolds(less, x, xs[1..]);
      forall k | 0 <= k < |rest| ensures less(xs[0], rest[k]) {
        assert rest[k] in multiset(rest);
        assert rest[k] == x || rest[k] in xs[1..];
      }
    }
  }

  lemma {:induction false} SortAscends<T(!new)>(less: (T, T) -> bool, xs: seq<T>)
    requires StrictOrder(less) && Comparable(less, xs)
    ensures Ascending(less, Sort(less, xs))
  {
    if |xs| > 0 {
      var n := |xs| - 1;
      var front := Sort(less, xs[..n]);
      SortAscends(less, xs[..n]);
      SortHolds(less, xs[..n]);
      forall k | 0 <= k < |front| ensures less(xs[n], front[k]) || less(front[k], xs[n]) {
        assert front[k] in multiset(front);
        assert front[k] in xs[..n];
      }
      InsertAscends(less, xs[n], front);
    }
  }

  lemma FirstIsLeast<T(!new)>(less: (T, T) -> bool, xs: seq<T>, x: T)
    requires Ascending(less, xs) && x in multiset(xs)
    ensures xs[0] == x || less(xs[0], x)
  {
    assert x in xs;
    var i :| 0 <= i < |xs| && xs[i] == x;
  }

  lemma TailItems<T>(xs: seq<T>)
    requires |xs| > 0
    ensures xs == [xs[0]] + xs[1..] && multiset(xs[1..]) == multiset(xs) - multiset{xs[0]}
  {
    assert xs == [xs[0]] + xs[1..];
  }

  lemma SameFirst<T(!new)>(less: (T, T) -> bool, xs: seq<T>, ys: seq<T>)
    requires StrictOrder(less) && Ascending(less, xs) && Ascending(less, ys) && multiset(xs) == multiset(ys) && |xs| > 0
    ensures |ys| > 0 && xs[0] == ys[0]
  {
    assert xs[0] in multiset(ys);
    assert ys[0] in multiset(xs);
    FirstIsLeast(less, xs, ys[0]);
    FirstIsLeast(less, ys, xs[0]);
  }

  // There is only one way to put the same items in ascending order.
  lemma {:induction false} AscendingUnique<T(!new)>(less: (T, T) -> bool, xs: seq<T>, ys: seq<T>)
    requires StrictOrder(less) && Ascending(less, xs) && Ascending(less, ys) && multiset(xs) == multiset(ys)
    ensures xs == ys
  {
    assert |xs| == |multiset(xs)| == |ys|;
    if |xs| > 0 {
      SameFirst(less, xs, ys);
      TailItems(xs);
      TailItems(ys);
      AscendingUnique(less, xs[1..], ys[1..]);
    }
  }

  // Sorting does not depend on the order its items come in.
  lemma SortIgnoresOrder<T(!new)>(less: (T, T) -> bool, xs: seq<T>, ys: seq<T>)
    requires StrictOrder(less) && Comparable(less, xs) && Comparable(less, ys) && multiset(xs) == multiset(ys)
    ensures Sort(less, xs) == Sort(less, ys)
  {
    SortAscends(less, xs);
    SortAscends(less, ys);
    SortHolds(less, xs);
    SortHolds(less, ys);
    AscendingUnique(less, Sort(less, xs), Sort(less, ys));
  }
}
