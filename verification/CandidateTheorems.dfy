// Generation is complete and free of duplicates, and stays inside one kind of market.

module CandidateTheorems {
  import opened Lines
  import opened Settlement
  import opened Coordinates
  import opened Sequences
  import opened Grouping
  import opened Classes
  import opened Sorting
  import opened Combinations
  import opened Coverage
  import opened Candidates

  // ---------------------------------------------------------------- ids

  ghost predicate UniqueIds(xs: seq<PricedSelection>) {
    forall i, j :: 0 <= i < j < |xs| ==> xs[i].leg.id != xs[j].leg.id
  }

  lemma {:induction false} FilterKeepsUnique(f: PricedSelection -> bool, xs: seq<PricedSelection>)
    requires UniqueIds(xs)
    ensures UniqueIds(Filter(f, xs))
  {
    if |xs| > 0 {
      var n := |xs| - 1;
      var front := Filter(f, xs[..n]);
      FilterKeepsUnique(f, xs[..n]);
      forall i | 0 <= i < |front| ensures front[i].leg.id != xs[n].leg.id {
        assert front[i] in front;
      }
    }
  }

  lemma {:induction false} WithKeepsUnique(xs: seq<PricedSelection>, k: (string, Period))
    requires UniqueIds(xs)
    ensures UniqueIds(With(EventPeriod, xs, k))
  {
    if |xs| > 0 {
      var n := |xs| - 1;
      var front := With(EventPeriod, xs[..n], k);
      WithKeepsUnique(xs[..n], k);
      forall i | 0 <= i < |front| ensures front[i].leg.id != xs[n].leg.id {
        assert front[i] in xs[..n];
      }
    }
  }

  ghost predicate Drawn(group: seq<PricedSelection>, priced: seq<PricedSelection>) {
    forall i :: 0 <= i < |group| ==> group[i] in priced
  }

  // A group holds selections of the input, of one event and period, with unique ids.
  lemma GroupMembers(priced: seq<PricedSelection>, options: GeneratorOptions, g: nat)
    requires UniqueIds(priced) && g < |EventGroups(priced, options)|
    ensures UniqueIds(EventGroups(priced, options)[g]) && Drawn(EventGroups(priced, options)[g], priced)
    ensures forall i, j :: 0 <= i < j < |EventGroups(priced, options)[g]| ==>
              EventPeriod(EventGroups(priced, options)[g][i]) == EventPeriod(EventGroups(priced, options)[g][j])
  {
    var eligible := Eligible(priced, options);
    var groups := Groups(EventPeriod, eligible);
    GroupsAreGrouped(EventPeriod, eligible);
    FilterKeepsUnique((p: PricedSelection) => options.eventId.None? || p.eventId == options.eventId.value, priced);
    WithKeepsUnique(eligible, groups[g].key);
    var group := EventGroups(priced, options)[g];
    assert group == With(EventPeriod, eligible, groups[g].key);
    forall i | 0 <= i < |group| ensures group[i] in priced {
      assert group[i] in eligible;
    }
  }

  lemma ByIdIsOrder()
    ensures StrictOrder(ById)
  {
    forall x ensures !ById(x, x) {
      StrLessIrreflexive(x.leg.id);
    }
    forall x, y, z | ById(x, y) && ById(y, z) ensures ById(x, z) {
      StrLessTransitive(x.leg.id, y.leg.id, z.leg.id);
    }
  }

  lemma UniqueIsComparable(xs: seq<PricedSelection>)
    requires UniqueIds(xs)
    ensures Comparable(ById, xs)
  {
    forall i, j | 0 <= i < j < |xs| ensures ById(xs[i], xs[j]) || ById(xs[j], xs[i]) {
      StrLessTotal(xs[i].leg.id, xs[j].leg.id);
    }
  }

  lemma PickedUnique(group: seq<PricedSelection>, c: seq<nat>)
    requires UniqueIds(group) && Combinations.IsCombination(c, |c|, 0, |group|)
    ensures UniqueIds(Picked(group, c))
  {
  }

  // ---------------------------------------------------------------- keys identify leg sets

  // x is the candidate of some set of distinct selections of the input.
  ghost predicate MadeFrom(priced: seq<PricedSelection>, legs: seq<PricedSelection>, x: Candidate) {
    && |legs| > 0 && Drawn(legs, priced) && UniqueIds(legs) && x == MakeCandidate(legs)
  }

  lemma MadeLegs(priced: seq<PricedSelection>, legs: seq<PricedSelection>, x: Candidate)
    requires MadeFrom(priced, legs, x)
    ensures multiset(x.legs) == multiset(legs) && Ascending(ById, x.legs) && Drawn(x.legs, priced)
    ensures x.legs == Sort(ById, legs) && x.key.ids == Map(IdOf, x.legs)
  {
    ByIdIsOrder();
    UniqueIsComparable(legs);
    SortAscends(ById, legs);
    SortHolds(ById, legs);
    forall i | 0 <= i < |x.legs| ensures x.legs[i] in priced {
      assert x.legs[i] in multiset(x.legs);
      assert x.legs[i] in legs;
    }
  }

  lemma IdsIdentify(priced: seq<PricedSelection>, xs: seq<PricedSelection>, ys: seq<PricedSelection>)
    requires UniqueIds(priced) && Drawn(xs, priced) && Drawn(ys, priced) && Map(IdOf, xs) == Map(IdOf, ys)
    ensures xs == ys
  {
    assert |xs| == |Map(IdOf, xs)| == |ys|;
    forall i | 0 <= i < |xs| ensures xs[i] == ys[i] {
      assert Map(IdOf, xs)[i] == Map(IdOf, ys)[i];
      var a :| 0 <= a < |priced| && priced[a] == xs[i];
      var b :| 0 <= b < |priced| && priced[b] == ys[i];
    }
  }

  // Two candidates have one key exactly when they have the same legs.
  lemma KeysIdentify(priced: seq<PricedSelection>, a: seq<PricedSelection>, b: seq<PricedSelection>, x: Candidate, y: Candidate)
    requires UniqueIds(priced) && MadeFrom(priced, a, x) && MadeFrom(priced, b, y)
    ensures x.key == y.key <==> multiset(a) == multiset(b)
  {
    MadeLegs(priced, a, x);
    MadeLegs(priced, b, y);
    ByIdIsOrder();
    if multiset(a) == multiset(b) {
      AscendingUnique(ById, x.legs, y.legs);
    }
    if x.key == y.key {
      IdsIdentify(priced, x.legs, y.legs);
    }
  }

  // ---------------------------------------------------------------- complete and duplicate-free

  // An accepted subset of one event-and-period group, of a size in range.
  ghost predicate GoodPick(priced: seq<PricedSelection>, options: GeneratorOptions, g: nat, c: seq<nat>) {
    && g < |EventGroups(priced, options)|
    && Combinations.IsCombination(c, |c|, 0, |EventGroups(priced, options)[g]|)
    && Smallest(options) <= |c| <= Largest(options)
    && Acceptable(Picked(EventGroups(priced, options)[g], c))
  }

  lemma PickIsMade(priced: seq<PricedSelection>, options: GeneratorOptions, g: nat, c: seq<nat>)
    requires UniqueIds(priced) && GoodPick(priced, options, g, c)
    ensures var legs := Picked(EventGroups(priced, options)[g], c);
            MadeFrom(priced, legs, MakeCandidate(legs))
  {
    GroupMembers(priced, options, g);
    PickedUnique(EventGroups(priced, options)[g], c);
  }

  // Where a generated candidate comes from.
  lemma CandidatePick(priced: seq<PricedSelection>, options: GeneratorOptions, cands: seq<Candidate>,
      i: nat) returns (g: nat, c: seq<nat>)
    requires IsGeneration(priced, options, cands) && i < |cands|
    ensures GoodPick(priced, options, g, c)
    ensures cands[i] == MakeCandidate(Picked(EventGroups(priced, options)[g], c))
  {
    var groups := EventGroups(priced, options);
    var x := cands[i];
    assert x in cands && FromSome(Acceptable, MakeCandidate, groups, Smallest(options), Largest(options), x);
    var h :| 0 <= h < |groups|
      && FromGroup(Acceptable, MakeCandidate, groups[h], Smallest(options), Min(Largest(options), |groups[h]|), x);
    var k: nat, d :| Smallest(options) <= k <= Min(Largest(options), |groups[h]|)
      && IsPick(Acceptable, MakeCandidate, groups[h], k, d, x);
    g, c := h, d;
  }

  // Below the cap a good pick's candidate has its key among the candidates'.
  lemma PickIsKeyed(priced: seq<PricedSelection>, options: GeneratorOptions, cands: seq<Candidate>, g: nat, c: seq<nat>)
    returns (i: nat)
    requires IsGeneration(priced, options, cands) && |cands| < Cap(options) && GoodPick(priced, options, g, c)
    ensures i < |cands| && cands[i].key == MakeCandidate(Picked(EventGroups(priced, options)[g], c)).key
  {
    var groups := EventGroups(priced, options);
    var x := MakeCandidate(Picked(groups[g], c));
    assert IsPick(Acceptable, MakeCandidate, groups[g], |c|, c, x);
    assert x.key in KeysOf(cands) && Has(KeyOf, cands, x.key);
    var n :| 0 <= n < |cands| && KeyOf(cands[n]) == x.key;
    i := n;
  }

  lemma OthersDiffer(priced: seq<PricedSelection>, options: GeneratorOptions, cands: seq<Candidate>, i: nat)
    requires UniqueIds(priced) && IsGeneration(priced, options, cands) && i < |cands|
    ensures forall j :: 0 <= j < |cands| && j != i ==> multiset(cands[j].legs) != multiset(cands[i].legs)
  {
    forall j | 0 <= j < |cands| && j != i ensures multiset(cands[j].legs) != multiset(cands[i].legs) {
      DistinctLegs(priced, options, cands, Min(i, j), Max(i, j));
    }
  }

  // Below the cap, with unique ids, every compatible and selection-distinct subset of a group with
  // a size in range has exactly one candidate; and no two candidates have the same legs.
  lemma GenerationIsExact(priced: seq<PricedSelection>, options: GeneratorOptions, cands: seq<Candidate>,
      g: nat, c: seq<nat>) returns (i: nat)
    requires UniqueIds(priced) && IsGeneration(priced, options, cands) && |cands| < Cap(options)
    requires GoodPick(priced, options, g, c)
    ensures i < |cands| && multiset(cands[i].legs) == multiset(Picked(EventGroups(priced, options)[g], c))
    ensures forall j :: 0 <= j < |cands| && j != i ==> multiset(cands[j].legs) != multiset(cands[i].legs)
  {
    i := PickIsKeyed(priced, options, cands, g, c);
    var legs := Picked(EventGroups(priced, options)[g], c);
    PickIsMade(priced, options, g, c);
    SameLegs(priced, options, cands, i, legs, MakeCandidate(legs));
    OthersDiffer(priced, options, cands, i);
  }

  lemma SameLegs(priced: seq<PricedSelection>, options: GeneratorOptions, cands: seq<Candidate>,
      i: nat, legs: seq<PricedSelection>, x: Candidate)
    requires UniqueIds(priced) && IsGeneration(priced, options, cands) && i < |cands|
    requires MadeFrom(priced, legs, x) && cands[i].key == x.key
    ensures multiset(cands[i].legs) == multiset(legs)
  {
    var g, c := CandidatePick(priced, options, cands, i);
    var own := Picked(EventGroups(priced, options)[g], c);
    PickIsMade(priced, options, g, c);
    MadeLegs(priced, own, cands[i]);
    KeysIdentify(priced, own, legs, cands[i], x);
  }

  lemma DistinctLegs(priced: seq<PricedSelection>, options: GeneratorOptions, cands: seq<Candidate>,
      i: nat, j: nat)
    requires UniqueIds(priced) && IsGeneration(priced, options, cands) && i < j < |cands|
    ensures multiset(cands[i].legs) != multiset(cands[j].legs)
  {
    var g, c := CandidatePick(priced, options, cands, i);
    var h, d := CandidatePick(priced, options, cands, j);
    var a, b := Picked(EventGroups(priced, options)[g], c), Picked(EventGroups(priced, options)[h], d);
    PickIsMade(priced, options, g, c);
    PickIsMade(priced, options, h, d);
    MadeLegs(priced, a, cands[i]);
    MadeLegs(priced, b, cands[j]);
    KeysIdentify(priced, a, b, cands[i], cands[j]);
    assert KeyOf(cands[i]) != KeyOf(cands[j]);
  }

  // ---------------------------------------------------------------- candidates as sets of selections

  // A set of priced selections worth a candidate: of the requested event, of a size in range, all of one event and
  // period, and any two of them different selections of markets that may be combined.
  ghost predicate Worth(priced: seq<PricedSelection>, options: GeneratorOptions, s: set<PricedSelection>) {
    && (forall p :: p in s ==> p in priced && (options.eventId.Some? ==> p.eventId == options.eventId.value))
    && 2 <= |s| && (options.minLegs.Some? ==> options.minLegs.value <= |s|)
    && |s| <= (match options.maxLegs case Some(most) => most case None => 3)
    && forall p, q :: p in s && q in s && p != q ==> GoTogether(p, q)
  }

  ghost predicate GoTogether(p: PricedSelection, q: PricedSelection) {
    && p.eventId == q.eventId && p.leg.selection.period == q.leg.selection.period
    && p.leg.selection != q.leg.selection && MayMix(p.leg.selection.family, q.leg.selection.family)
  }

  // A candidate of just these selections, in the order of their ids, with its event, period and ids in its key.
  ghost predicate CandidateFor(x: Candidate, s: set<PricedSelection>) {
    && multiset(x.legs) == multiset(s) && Ascending(ById, x.legs)
    && |x.key.ids| == |x.legs| && (forall i :: 0 <= i < |x.legs| ==> x.key.ids[i] == x.legs[i].leg.id)
    && forall p :: p in s ==> x.key.eventId == p.eventId && x.key.period == p.leg.selection.period
  }

  ghost predicate Different<T>(xs: seq<T>) {
    forall i, j :: 0 <= i < j < |xs| ==> xs[i] != xs[j]
  }

  lemma {:induction false} SetOf<T>(xs: seq<T>) returns (s: set<T>)
    requires Different(xs)
    ensures multiset(xs) == multiset(s) && |s| == |xs| && forall x :: x in s <==> x in xs
  {
    if |xs| == 0 {
      s := {};
    } else {
      var n := |xs| - 1;
      var front := SetOf(xs[..n]);
      s := OneMore(front, xs[..n], xs[n]);
      assert xs == xs[..n] + [xs[n]];
    }
  }

  lemma OneMore<T>(front: set<T>, xs: seq<T>, x: T) returns (s: set<T>)
    requires multiset(xs) == multiset(front) && |front| == |xs| && (forall y :: y in front <==> y in xs) && x !in xs
    ensures multiset(xs + [x]) == multiset(s) && |s| == |xs + [x]| && forall y :: y in s <==> y in xs + [x]
  {
    s := front + {x};
  }

  // The places of a set of items in a list without repetition.
  ghost predicate ArePlaces<T>(xs: seq<T>, s: set<T>, c: seq<nat>) {
    Combinations.IsCombination(c, |s|, 0, |xs|) && forall i :: 0 <= i < |c| ==> xs[c[i]] in s
  }

  lemma PlacesMore<T>(xs: seq<T>, n: nat, s: set<T>, rest: set<T>, c: seq<nat>)
    requires |xs| == n + 1 && ArePlaces(xs[..n], rest, c) && rest == s - {xs[n]} && xs[n] in s
    ensures ArePlaces(xs, s, c + [n])
  {
    assert s == rest + {xs[n]};
  }

  lemma {:induction false} PlacesOf<T>(xs: seq<T>, s: set<T>) returns (c: seq<nat>)
    requires Different(xs) && forall x :: x in s ==> x in xs
    ensures ArePlaces(xs, s, c)
  {
    if |xs| == 0 {
      assert s == {};
      c := [];
    } else {
      var n := |xs| - 1;
      var rest := s - {xs[n]};
      LastDropped(xs, n, s, rest);
      c := PlacesOf(xs[..n], rest);
      if xs[n] in s {
        PlacesMore(xs, n, s, rest, c);
        c := c + [n];
      } else {
        assert s == rest;
      }
    }
  }

  lemma LastDropped<T>(xs: seq<T>, n: nat, s: set<T>, rest: set<T>)
    requires |xs| == n + 1 && Different(xs) && (forall x :: x in s ==> x in xs) && rest == s - {xs[n]}
    ensures Different(xs[..n]) && forall x :: x in rest ==> x in xs[..n]
  {
    assert xs == xs[..n] + [xs[n]];
  }

  lemma SubsetOfSize<T>(a: set<T>, b: set<T>)
    requires a <= b && |a| == |b|
    ensures a == b
  {
    assert |b - a| == 0 by {
      assert b == a + (b - a);
    }
    assert b - a == {};
  }

  lemma PickedSet<T>(xs: seq<T>, c: seq<nat>, s: set<T>)
    requires Different(xs) && ArePlaces(xs, s, c)
    ensures multiset(Picked(xs, c)) == multiset(s)
  {
    var picked := Picked(xs, c);
    assert Different(picked);
    var own := SetOf(picked);
    forall x | x in own ensures x in s {
      assert x in picked;
    }
    SubsetOfSize(own, s);
  }

  lemma UniqueDiffer(xs: seq<PricedSelection>)
    requires UniqueIds(xs)
    ensures Different(xs)
  {
  }

  // ---------------------------------------------------------------- the generated list

  // Priced selections of the requested event, all of one event and period.
  ghost predicate Shared(priced: seq<PricedSelection>, options: GeneratorOptions, group: seq<PricedSelection>) {
    && (forall p :: p in group ==> p in priced && (options.eventId.Some? ==> p.eventId == options.eventId.value))
    && forall p, q :: p in group && q in group ==> p.eventId == q.eventId && p.leg.selection.period == q.leg.selection.period
  }

  lemma PickedShared(priced: seq<PricedSelection>, options: GeneratorOptions, group: seq<PricedSelection>, c: seq<nat>)
    requires Shared(priced, options, group) && Combinations.IsCombination(c, |c|, 0, |group|)
    ensures Shared(priced, options, Picked(group, c))
  {
    var legs := Picked(group, c);
    forall p | p in legs ensures p in group {
      var i :| 0 <= i < |legs| && legs[i] == p;
      assert group[c[i]] == p;
    }
  }

  lemma WorthFromLegs(priced: seq<PricedSelection>, options: GeneratorOptions, legs: seq<PricedSelection>, s: set<PricedSelection>)
    requires Shared(priced, options, legs) && |s| == |legs| && (forall p :: p in s <==> p in legs)
    requires Smallest(options) <= |legs| <= Largest(options) && FitTogether(legs)
    ensures Worth(priced, options, s)
  {
    forall p, q | p in s && q in s && p != q ensures GoTogether(p, q) {
      var i :| 0 <= i < |legs| && legs[i] == p;
      var j :| 0 <= j < |legs| && legs[j] == q;
      FitPair(legs, i, j);
    }
  }

  lemma FitPair(legs: seq<PricedSelection>, i: nat, j: nat)
    requires FitTogether(legs) && i < |legs| && j < |legs| && i != j
    ensures legs[i].leg.selection != legs[j].leg.selection
    ensures MayMix(legs[i].leg.selection.family, legs[j].leg.selection.family)
  {
    var a, b := Min(i, j), Max(i, j);
    assert legs[a].leg.selection != legs[b].leg.selection;
    MixesBothWays(legs[a].leg.selection.family, legs[b].leg.selection.family);
  }

  lemma MixesBothWays(a: Family, b: Family)
    ensures MayMix(a, b) <==> MayMix(b, a)
  {
    assert {a, b} == {b, a};
  }

  // Every candidate is for a set of priced selections that is worth one.
  lemma CandidateIsWorth(priced: seq<PricedSelection>, options: GeneratorOptions, cands: seq<Candidate>, i: nat)
    returns (s: set<PricedSelection>)
    requires UniqueIds(priced) && IsGeneration(priced, options, cands) && i < |cands|
    ensures Worth(priced, options, s) && CandidateFor(cands[i], s)
  {
    var g, c := CandidatePick(priced, options, cands, i);
    var group := EventGroups(priced, options)[g];
    PickIsMade(priced, options, g, c);
    MadeLegs(priced, Picked(group, c), cands[i]);
    GroupShares(priced, options, g);
    PickedShared(priced, options, group, c);
    PickedUnique(group, c);
    UniqueDiffer(Picked(group, c));
    AcceptableMeans(Picked(group, c));
    s := SetOf(Picked(group, c));
    WorthFromLegs(priced, options, Picked(group, c), s);
    KeyShares(priced, options, Picked(group, c), cands[i], s);
  }

  lemma GroupShares(priced: seq<PricedSelection>, options: GeneratorOptions, g: nat)
    requires UniqueIds(priced) && g < |EventGroups(priced, options)|
    ensures UniqueIds(EventGroups(priced, options)[g]) && Shared(priced, options, EventGroups(priced, options)[g])
  {
    GroupMembers(priced, options, g);
    var eligible := Eligible(priced, options);
    var groups := Groups(EventPeriod, eligible);
    GroupsAreGrouped(EventPeriod, eligible);
    var group := EventGroups(priced, options)[g];
    assert group == With(EventPeriod, eligible, groups[g].key);
    forall p | p in group
      ensures p in priced && EventPeriod(p) == groups[g].key
      ensures options.eventId.Some? ==> p.eventId == options.eventId.value
    {
      var i :| 0 <= i < |group| && group[i] == p;
      assert p in eligible;
    }
  }

  lemma KeyShares(priced: seq<PricedSelection>, options: GeneratorOptions, legs: seq<PricedSelection>, x: Candidate,
      s: set<PricedSelection>)
    requires Shared(priced, options, legs) && |legs| > 0 && multiset(legs) == multiset(s)
    requires x == MakeCandidate(legs) && multiset(x.legs) == multiset(legs) && Ascending(ById, x.legs)
    requires x.key.ids == Map(IdOf, x.legs)
    ensures CandidateFor(x, s)
  {
    assert x.legs[0] in multiset(x.legs);
    assert x.legs[0] in legs;
    forall p | p in s ensures x.key.eventId == p.eventId && x.key.period == p.leg.selection.period {
      assert p in multiset(s);
      assert p in legs;
    }
  }

  // Where a set that is worth a candidate is picked from.
  lemma WorthIsPicked(priced: seq<PricedSelection>, options: GeneratorOptions, s: set<PricedSelection>) returns (g: nat, c: seq<nat>)
    requires UniqueIds(priced) && Worth(priced, options, s)
    ensures GoodPick(priced, options, g, c)
    ensures multiset(Picked(EventGroups(priced, options)[g], c)) == multiset(s)
  {
    var eligible := Eligible(priced, options);
    var groups := Groups(EventPeriod, eligible);
    GroupsAreGrouped(EventPeriod, eligible);
    var first :| first in s;
    forall p | p in s ensures p in eligible && EventPeriod(p) == EventPeriod(first) {
      assert p != first ==> GoTogether(p, first);
    }
    var at :| 0 <= at < |eligible| && eligible[at] == first;
    assert HasKey(groups, EventPeriod(eligible[at]));
    g :| 0 <= g < |groups| && groups[g].key == EventPeriod(first);
    var group := EventGroups(priced, options)[g];
    GroupMembers(priced, options, g);
    forall p | p in s ensures p in group {
      var i :| 0 <= i < |eligible| && eligible[i] == p;
      WithComplete(EventPeriod, eligible, EventPeriod(first), i);
    }
    UniqueDiffer(group);
    c := PlacesOf(group, s);
    PickedSet(group, c, s);
    WorthAccepted(priced, options, group, c, s);
  }

  lemma WorthAccepted(priced: seq<PricedSelection>, options: GeneratorOptions, group: seq<PricedSelection>, c: seq<nat>,
      s: set<PricedSelection>)
    requires Worth(priced, options, s) && Different(group) && Combinations.IsCombination(c, |s|, 0, |group|)
    requires forall i :: 0 <= i < |c| ==> group[c[i]] in s
    ensures Smallest(options) <= |c| <= Largest(options) && Acceptable(Picked(group, c))
  {
    var legs := Picked(group, c);
    forall i, j | 0 <= i < j < |legs| ensures GoTogether(legs[i], legs[j]) {
      assert legs[i] == group[c[i]] && legs[j] == group[c[j]];
    }
    assert FitTogether(legs);
    AcceptableMeans(legs);
  }

  ghost predicate OneFor(cands: seq<Candidate>, s: set<PricedSelection>) {
    exists i :: 0 <= i < |cands| && CandidateFor(cands[i], s)
                && forall j :: 0 <= j < |cands| && j != i ==> multiset(cands[j].legs) != multiset(s)
  }

  // Below the cap, of 20000 when none is given, the candidates are one for each set that is worth one, and no others.
  lemma GenerationMeans(priced: seq<PricedSelection>, options: GeneratorOptions, cands: seq<Candidate>, s: set<PricedSelection>)
    requires UniqueIds(priced) && IsGeneration(priced, options, cands)
    requires |cands| < match options.maxCandidates case Some(cap) => cap case None => 20000
    ensures Worth(priced, options, s) ==> OneFor(cands, s)
    ensures (exists i :: 0 <= i < |cands| && multiset(cands[i].legs) == multiset(s)) ==> Worth(priced, options, s)
  {
    if Worth(priced, options, s) {
      var g, c := WorthIsPicked(priced, options, s);
      var i := GenerationIsExact(priced, options, cands, g, c);
      CandidateIsFor(priced, options, cands, i, s);
    }
    if exists i :: 0 <= i < |cands| && multiset(cands[i].legs) == multiset(s) {
      var i :| 0 <= i < |cands| && multiset(cands[i].legs) == multiset(s);
      CandidateIsFor(priced, options, cands, i, s);
    }
  }

  lemma CandidateIsFor(priced: seq<PricedSelection>, options: GeneratorOptions, cands: seq<Candidate>, i: nat,
      s: set<PricedSelection>)
    requires UniqueIds(priced) && IsGeneration(priced, options, cands) && i < |cands| && multiset(cands[i].legs) == multiset(s)
    ensures Worth(priced, options, s) && CandidateFor(cands[i], s)
  {
    var own := CandidateIsWorth(priced, options, cands, i);
    SameSets(own, s);
  }

  lemma SameSets<T>(a: set<T>, b: set<T>)
    requires multiset(a) == multiset(b)
    ensures a == b
  {
    forall x ensures x in a <==> x in b {
      assert x in multiset(a) <==> x in multiset(b);
    }
  }

  // The generated list in terms of sets of priced selections: each candidate is for one that is worth it, no two
  // are for the same, and below the cap, of 20000 when none is given, none that is worth it is left out.
  ghost predicate IsExactly(priced: seq<PricedSelection>, options: GeneratorOptions, cands: seq<Candidate>) {
    var cap := match options.maxCandidates case Some(most) => most case None => 20000;
    && (forall i :: 0 <= i < |cands| ==> IsForSome(priced, options, cands[i]))
    && (forall i, j :: 0 <= i < j < |cands| ==> multiset(cands[i].legs) != multiset(cands[j].legs))
    && |cands| <= Max(cap, 1) && (|cands| < cap ==> forall s :: Worth(priced, options, s) ==> OneFor(cands, s))
  }

  ghost predicate IsForSome(priced: seq<PricedSelection>, options: GeneratorOptions, x: Candidate) {
    exists s :: Worth(priced, options, s) && CandidateFor(x, s)
  }

  lemma GeneratesExactly(priced: seq<PricedSelection>, options: GeneratorOptions, cands: seq<Candidate>)
    requires UniqueIds(priced) && IsGeneration(priced, options, cands)
    ensures IsExactly(priced, options, cands)
  {
    forall i | 0 <= i < |cands| ensures IsForSome(priced, options, cands[i]) {
      var s := CandidateIsWorth(priced, options, cands, i);
    }
    forall i, j | 0 <= i < j < |cands| ensures multiset(cands[i].legs) != multiset(cands[j].legs) {
      DistinctLegs(priced, options, cands, i, j);
    }
    if |cands| < Cap(options) {
      forall s | Worth(priced, options, s) ensures OneFor(cands, s) {
        GenerationMeans(priced, options, cands, s);
      }
    }
  }
}
