// Counting facts: how many subsets of a given size there are.

module Counting {

  // The number of k-element subsets of an n-element set.
  function Binomial(n: nat, k: nat): nat {
    if k == 0 then 1
    else if n == 0 then 0
    else Binomial(n - 1, k - 1) + Binomial(n - 1, k)
  }

  // A sequence without repetitions has as many elements as positions.
  lemma {:induction false} DistinctSize<T>(s: seq<T>)
    requires forall i, k :: 0 <= i < k < |s| ==> s[i] != s[k]
    ensures |set x | x in s| == |s|
  {
    if |s| > 0 {
      var last := |s| - 1;
      var front := s[..last];
      DistinctSize(front);
      assert (set x | x in s) == (set x | x in front) + {s[last]};
      assert s[last] !in front;
    }
  }

  lemma {:induction false} FamilySize(family: set<set<nat>>, n: nat, k: nat)
    requires forall s :: s in family ==> |s| == k && forall j :: j in s ==> j < n
    ensures |family| <= Binomial(n, k)
    decreases n
  {
    if k == 0 {
      var empty: set<nat> := {};
      SubsetSize(family, {empty});
    } else if n == 0 {
      EmptyFamily(family, k);
    } else {
      var top := n - 1;
      var without, containing := SplitFamily(family, top);
      var reduced := set s | s in containing :: s - {top};
      FamilySize(without, n - 1, k);
      FamilySize(reduced, n - 1, k - 1);
      RemovedSize(containing, reduced, top);
    }
  }

  lemma EmptyFamily(family: set<set<nat>>, k: nat)
    requires k > 0 && forall s :: s in family ==> |s| == k && forall j :: j in s ==> j < 0
    ensures family == {}
  {
    assert forall s :: s in family ==> s == {};
    assert forall s: set<nat> :: s == {} ==> |s| != k;
  }

  lemma SplitFamily(family: set<set<nat>>, top: nat) returns (without: set<set<nat>>, containing: set<set<nat>>)
    ensures |family| == |without| + |containing|
    ensures forall s :: s in without ==> s in family && top !in s
    ensures forall s :: s in containing ==> s in family && top in s
  {
    without := set s | s in family && top !in s;
    containing := family - without;
    assert family == without + containing;
  }

  lemma SubsetSize<T>(a: set<T>, b: set<T>)
    requires a <= b
    ensures |a| <= |b|
  {
    assert b == a + (b - a);
  }

  // Taking a common element out of every set of a family loses no set.
  lemma {:induction false} RemovedSize(family: set<set<nat>>, reduced: set<set<nat>>, top: nat)
    requires forall s :: s in family ==> top in s
    requires reduced == set s | s in family :: s - {top}
    ensures |reduced| == |family|
    decreases |family|
  {
    if family != {} {
      var s :| s in family;
      var rest := family - {s};
      var reducedRest := set u | u in rest :: u - {top};
      RemovedSize(rest, reducedRest, top);
      forall u | u in rest ensures u - {top} != s - {top} {
        assert u == (u - {top}) + {top} && s == (s - {top}) + {top};
      }
      assert reduced == reducedRest + {s - {top}} by {
        forall z | z in reduced ensures z in reducedRest + {s - {top}} {
          var u :| u in family && u - {top} == z;
          if u != s {
            assert u in rest;
          }
        }
      }
    }
  }

  // Pairwise different k-element subsets of 0..n are at most Binomial(n, k) many.
  lemma DistinctFamily(sets: seq<set<nat>>, n: nat, k: nat)
    requires forall i :: 0 <= i < |sets| ==> |sets[i]| == k && forall j :: j in sets[i] ==> j < n
    requires forall a, b :: 0 <= a < b < |sets| ==> sets[a] != sets[b]
    ensures |sets| <= Binomial(n, k)
  {
    DistinctSize(sets);
    var family := set s | s in sets;
    FamilySize(family, n, k);
  }
}
