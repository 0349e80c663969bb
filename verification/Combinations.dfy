// All k-subsets of n places, in lexicographic order: as a recursive list, and as the source
// enumerates them, by moving an array of indices in place.

module Combinations {
  import opened Lines
  import opened Sequences

  // Strictly increasing places in [from, n).
  ghost predicate IsCombination(c: seq<nat>, k: nat, from: nat, n: nat) {
    && |c| == k
    && (forall i :: 0 <= i < k ==> from <= c[i] < n)
    && (forall i, j :: 0 <= i < j < k ==> c[i] < c[j])
  }

  function Prepended(first: nat, cs: seq<seq<nat>>): (r: seq<seq<nat>>)
    ensures |r| == |cs| && forall i :: 0 <= i < |cs| ==> r[i] == [first] + cs[i]
  {
    seq(|cs|, i requires 0 <= i < |cs| => [first] + cs[i])
  }

  function Combos(n: nat, k: nat, from: nat): seq<seq<nat>>
    requires from <= n
    decreases n - from
  {
    if k == 0 then [[]]
    else if n - from < k then []
    else Prepended(from, Combos(n, k - 1, from + 1)) + Combos(n, k, from + 1)
  }

  // ---------------------------------------------------------------- what the list holds

  lemma {:induction false} CombosAre(n: nat, k: nat, from: nat, i: nat)
    requires from <= n && i < |Combos(n, k, from)|
    ensures IsCombination(Combos(n, k, from)[i], k, from, n)
    decreases n - from
  {
    if k > 0 {
      var p := Combos(n, k - 1, from + 1);
      if i < |p| {
        CombosAre(n, k - 1, from + 1, i);
      } else {
        CombosAre(n, k, from + 1, i - |p|);
      }
    }
  }

  // A combination takes the first place or lies past it.
  lemma CombinationCases(c: seq<nat>, k: nat, from: nat, n: nat)
    requires k > 0 && IsCombination(c, k, from, n)
    ensures from < n
    ensures c[0] == from ==> c == [from] + c[1..] && IsCombination(c[1..], k - 1, from + 1, n)
    ensures c[0] != from ==> IsCombination(c, k, from + 1, n)
  {
    if c[0] == from {
      assert forall i :: 0 <= i < k - 1 ==> c[1..][i] == c[i + 1] && c[0] < c[i + 1];
    } else {
      assert forall i :: 1 <= i < k ==> c[0] < c[i];
    }
  }

  // The list is in two parts: the combinations that start at `from`, then the others.
  lemma CombosSplit(n: nat, k: nat, from: nat, next: nat) returns (p: seq<seq<nat>>, q: seq<seq<nat>>)
    requires 0 < k <= n - from && next == from + 1
    ensures p == Combos(n, k - 1, next) && q == Combos(n, k, next)
    ensures Combos(n, k, from) == Prepended(from, p) + q
  {
    p, q := Combos(n, k - 1, next), Combos(n, k, next);
  }

  ghost predicate Listed(c: seq<nat>, cs: seq<seq<nat>>) {
    exists i :: 0 <= i < |cs| && cs[i] == c
  }

  lemma ListedInBoth(first: nat, c: seq<nat>, p: seq<seq<nat>>, q: seq<seq<nat>>)
    ensures Listed(c, p) ==> Listed([first] + c, Prepended(first, p) + q)
    ensures Listed(c, q) ==> Listed(c, Prepended(first, p) + q)
  {
    var all := Prepended(first, p) + q;
    if Listed(c, p) {
      var i :| 0 <= i < |p| && p[i] == c;
      assert all[i] == [first] + c;
    }
    if Listed(c, q) {
      var i :| 0 <= i < |q| && q[i] == c;
      assert all[|p| + i] == c;
    }
  }

  lemma {:induction false} CombosComplete(n: nat, k: nat, from: nat, c: seq<nat>)
    requires from <= n && IsCombination(c, k, from, n)
    ensures Listed(c, Combos(n, k, from))
    decreases n - from
  {
    if k == 0 {
      assert Combos(n, k, from)[0] == c;
    } else {
      CombinationFits(c, k, from, n);
      CombinationCases(c, k, from, n);
      var next := from + 1;
      var p, q := CombosSplit(n, k, from, next);
      if c[0] == from {
        CombosComplete(n, k - 1, next, c[1..]);
        ListedInBoth(from, c[1..], p, q);
      } else {
        CombosComplete(n, k, next, c);
        ListedInBoth(from, c, p, q);
      }
    }
  }

  lemma {:induction false} CombinationFits(c: seq<nat>, k: nat, from: nat, n: nat)
    requires from <= n && IsCombination(c, k, from, n)
    ensures n - from >= k
    decreases k
  {
    if k > 0 {
      CombinationFits(c[1..], k - 1, c[0] + 1, n);
    }
  }

  // The first place at which two lists differ, the earlier list being the smaller there.
  ghost predicate LexLess(c: seq<nat>, d: seq<nat>) {
    |c| == |d| && exists p :: 0 <= p < |c| && c[..p] == d[..p] && c[p] < d[p]
  }

  lemma LexPrepend(first: nat, c: seq<nat>, d: seq<nat>)
    requires LexLess(c, d)
    ensures LexLess([first] + c, [first] + d)
  {
    var p :| 0 <= p < |c| && c[..p] == d[..p] && c[p] < d[p];
    var e, f := [first] + c, [first] + d;
    assert e[..p + 1] == [first] + c[..p] && f[..p + 1] == [first] + d[..p];
    assert e[p + 1] < f[p + 1];
  }

  // The list is in strictly increasing lexicographic order, so nothing is in it twice.
  lemma {:induction false} CombosAscend(n: nat, k: nat, from: nat, i: nat, j: nat)
    requires from <= n && i < j < |Combos(n, k, from)|
    ensures LexLess(Combos(n, k, from)[i], Combos(n, k, from)[j])
    decreases n - from
  {
    var p := Combos(n, k - 1, from + 1);
    if j < |p| {
      CombosAscend(n, k - 1, from + 1, i, j);
      LexPrepend(from, p[i], p[j]);
    } else if i >= |p| {
      CombosAscend(n, k, from + 1, i - |p|, j - |p|);
    } else {
      var c, d := Combos(n, k, from)[i], Combos(n, k, from)[j];
      CombosAre(n, k, from, i);
      CombosAre(n, k, from + 1, j - |p|);
      assert c[..0] == d[..0] && c[0] < d[0];
    }
  }

  // ---------------------------------------------------------------- the successor

  function Run(first: nat, k: nat): (r: seq<nat>)
    ensures |r| == k && forall i :: 0 <= i < k ==> r[i] == first + i
  {
    seq(k, i => first + i)
  }

  // The next combination: the last place that can still move moves, and the rest follow it.
  function Successor(n: nat, c: seq<nat>): (r: Option<seq<nat>>)
    ensures r.Some? ==> |r.value| == |c|
  {
    if |c| == 0 then None
    else
      match Successor(n, c[1..])
      case Some(d) => Some([c[0]] + d)
      case None => if c[0] + |c| < n then Some(Run(c[0] + 1, |c|)) else None
  }

  lemma {:induction false} FirstCombo(n: nat, k: nat, from: nat)
    requires from <= n && n - from >= k
    ensures |Combos(n, k, from)| > 0 && Combos(n, k, from)[0] == Run(from, k)
    decreases k
  {
    if k == 0 {
      assert Run(from, 0) == [];
    } else {
      FirstCombo(n, k - 1, from + 1);
      assert Run(from, k) == [from] + Run(from + 1, k - 1);
    }
  }

  lemma SuccessorOfPrepended(n: nat, first: nat, c: seq<nat>)
    ensures Successor(n, [first] + c) ==
      match Successor(n, c)
      case Some(d) => Some([first] + d)
      case None => if first + |c| + 1 < n then Some(Run(first + 1, |c| + 1)) else None
  {
    assert ([first] + c)[1..] == c;
  }

  // The successor of the last combination with a given first place starts at the next place.
  lemma SuccessorCrosses(n: nat, k: nat, from: nat, c: seq<nat>)
    requires 0 < k && from < n && |c| == k - 1 && Successor(n, c) == None
    ensures Successor(n, [from] + c) == if n - (from + 1) >= k then Some(Run(from + 1, k)) else None
  {
    SuccessorOfPrepended(n, from, c);
  }

  // The combinations that start at `from`, then the others.
  lemma SuccessorInBoth(n: nat, k: nat, from: nat, p: seq<seq<nat>>, q: seq<seq<nat>>, i: nat)
    requires 0 < k && from < n && i < |p| && |p[i]| == k - 1
    requires Successor(n, p[i]) == if i + 1 < |p| then Some(p[i + 1]) else None
    requires |q| > 0 <==> n - (from + 1) >= k
    requires |q| > 0 ==> q[0] == Run(from + 1, k)
    ensures var all := Prepended(from, p) + q;
            Successor(n, all[i]) == if i + 1 < |all| then Some(all[i + 1]) else None
  {
    if i + 1 < |p| {
      SuccessorOfPrepended(n, from, p[i]);
    } else {
      SuccessorCrosses(n, k, from, p[i]);
    }
  }

  lemma SuccessorBeyond(n: nat, p: seq<seq<nat>>, q: seq<seq<nat>>, i: nat)
    requires |p| <= i < |p + q|
    requires Successor(n, q[i - |p|]) == if i - |p| + 1 < |q| then Some(q[i - |p| + 1]) else None
    ensures Successor(n, (p + q)[i]) == if i + 1 < |p + q| then Some((p + q)[i + 1]) else None
  {
  }

  lemma CombosStart(n: nat, k: nat, from: nat)
    requires from <= n
    ensures |Combos(n, k, from)| > 0 <==> n - from >= k
    ensures |Combos(n, k, from)| > 0 ==> Combos(n, k, from)[0] == Run(from, k)
  {
    if n - from >= k {
      FirstCombo(n, k, from);
    }
  }

  // Each combination's successor is the next in the list, and the last has none.
  lemma {:induction false} SuccessorIsNext(n: nat, k: nat, from: nat, i: nat, all: seq<seq<nat>>)
    requires from <= n && all == Combos(n, k, from) && i < |all|
    ensures Successor(n, all[i]) == if i + 1 < |all| then Some(all[i + 1]) else None
    decreases n - from
  {
    if k > 0 {
      var p, q := Combos(n, k - 1, from + 1), Combos(n, k, from + 1);
      if i < |p| {
        SuccessorIsNext(n, k - 1, from + 1, i, p);
        CombosAre(n, k - 1, from + 1, i);
        CombosStart(n, k, from + 1);
        SuccessorInBoth(n, k, from, p, q, i);
      } else {
        SuccessorIsNext(n, k, from + 1, i - |p|, q);
        SuccessorBeyond(n, Prepended(from, p), q, i);
      }
    }
  }

  // ---------------------------------------------------------------- in place

  ghost predicate AtEnd(n: nat, c: seq<nat>, from: nat) {
    |c| <= n && forall j :: from <= j < |c| ==> c[j] == n - |c| + j
  }

  lemma {:induction false} NoSuccessor(n: nat, c: seq<nat>)
    requires AtEnd(n, c, 0)
    ensures Successor(n, c) == None
  {
    if |c| > 0 {
      NoSuccessor(n, c[1..]);
    }
  }

  lemma {:induction false} SuccessorAt(n: nat, c: seq<nat>, p: nat)
    requires p < |c| && AtEnd(n, c, p + 1) && c[p] < n - |c| + p
    ensures Successor(n, c) == Some(c[..p] + Run(c[p] + 1, |c| - p))
  {
    if p == 0 {
      NoSuccessor(n, c[1..]);
      assert c[..0] + Run(c[0] + 1, |c|) == Run(c[0] + 1, |c|);
    } else {
      SuccessorAt(n, c[1..], p - 1);
      var run := Run(c[p] + 1, |c| - p);
      assert [c[0]] + (c[1..][..p - 1] + run) == c[..p] + run;
    }
  }

  // Moves the indices to the next combination; false when there is none.
  method Advance(indices: array<nat>, n: nat) returns (more: bool)
    requires indices.Length <= n && forall j :: 0 <= j < indices.Length ==> indices[j] <= n - indices.Length + j
    modifies indices
    ensures Successor(n, old(indices[..])) == if more then Some(indices[..]) else None
    ensures forall j :: 0 <= j < indices.Length ==> indices[j] <= n - indices.Length + j
  {
    var k := indices.Length;
    ghost var was := indices[..];
    var cursor := k - 1;
    while cursor >= 0 && indices[cursor] == n - k + cursor
      invariant -1 <= cursor < k && AtEnd(n, was, cursor + 1)
    {
      cursor := cursor - 1;
    }
    if cursor < 0 {
      NoSuccessor(n, was);
      return false;
    }
    SuccessorAt(n, was, cursor);
    indices[cursor] := indices[cursor] + 1;
    for next := cursor + 1 to k
      invariant forall j :: 0 <= j < cursor ==> indices[j] == was[j]
      invariant forall j :: cursor <= j < next ==> indices[j] == was[cursor] + 1 + (j - cursor)
      invariant forall j :: next <= j < k ==> indices[j] == was[j]
    {
      indices[next] := indices[next - 1] + 1;
    }
    assert indices[..] == was[..cursor] + Run(was[cursor] + 1, k - cursor);
    more := true;
  }

  // Every combination the generator yields, in the order it yields them.
  method Enumerate(n: nat, size: nat) returns (yielded: seq<seq<nat>>)
    ensures yielded == Combos(n, size, 0)
  {
    yielded := [];
    if size > n {
      return;
    }
    var indices := new nat[size](i => i);
    FirstCombo(n, size, 0);
    assert indices[..] == Run(0, size);
    ghost var all := Combos(n, size, 0);
    var more := true;
    while more
      invariant |yielded| <= |all| && yielded == all[..|yielded|]
      invariant forall j :: 0 <= j < size ==> indices[j] <= n - size + j
      invariant more ==> |yielded| < |all| && indices[..] == all[|yielded|]
      invariant !more ==> |yielded| == |all|
      decreases |all| - |yielded|, more
    {
      SuccessorIsNext(n, size, 0, |yielded|, all);
      yielded := yielded + [indices[..]];
      more := Advance(indices, n);
    }
  }
}
