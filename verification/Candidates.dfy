// Candidate generation: the leg sets of one event and period that are worth evaluating.

module Candidates {
  import opened Lines
  import opened Settlement
  import opened Coordinates
  import opened Sequences
  import opened Grouping
  import opened Classes
  import opened Sorting
  import opened Combinations
  import opened Coverage

  datatype PricedSelection = PricedSelection(
    leg: Leg,
    eventId: string,
    bookmaker: string,
    observedAt: Option<int>,
    suspended: bool,
    eventConfidence: Option<real>)

  datatype CandidateKey = CandidateKey(eventId: string, period: Period, ids: seq<string>)

  datatype Candidate = Candidate(key: CandidateKey, legs: seq<PricedSelection>)

  datatype GeneratorOptions = GeneratorOptions(
    eventId: Option<string>, minLegs: Option<int>, maxLegs: Option<int>, maxCandidates: Option<int>)

  const DEFAULT_MAX_CANDIDATES := 20000

  function Or(value: Option<int>, other: int): int {
    if value.Some? then value.value else other
  }

  // ---------------------------------------------------------------- compatibility

  predicate IsPair(a: Family, b: Family, x: Family, y: Family) {
    (a == x && b == y) || (a == y && b == x)
  }

  predicate FamiliesCompatible(a: Family, b: Family) {
    || a == b
    || IsPair(a, b, MatchTotal, TeamTotal)
    || IsPair(a, b, MatchTotal, AsianTotal)
    || IsPair(a, b, TeamTotal, AsianTotal)
    || IsPair(a, b, MatchResult, DoubleChance)
    || IsPair(a, b, MatchTotal, Btts)
  }

  predicate PairwiseCompatible(legs: seq<PricedSelection>) {
    forall i, j :: 0 <= i < j < |legs| ==>
      FamiliesCompatible(legs[i].leg.selection.family, legs[j].leg.selection.family)
  }

  predicate HasDuplicateSelection(legs: seq<PricedSelection>) {
    exists i, j :: 0 <= i < j < |legs| && legs[i].leg.selection == legs[j].leg.selection
  }

  predicate Acceptable(legs: seq<PricedSelection>) {
    !HasDuplicateSelection(legs) && PairwiseCompatible(legs)
  }

  // The market families that may be combined with others.
  ghost const MIXED: set<set<Family>> :=
    {{MatchTotal, TeamTotal}, {MatchTotal, AsianTotal}, {TeamTotal, AsianTotal}, {MatchResult, DoubleChance}, {MatchTotal, Btts}}

  ghost predicate MayMix(a: Family, b: Family) {
    a == b || {a, b} in MIXED
  }

  lemma SamePair<T>(a: T, b: T, x: T, y: T)
    ensures {a, b} == {x, y} <==> (a == x && b == y) || (a == y && b == x)
  {
    if {a, b} == {x, y} {
      assert a in {x, y} && b in {x, y} && x in {a, b} && y in {a, b};
    }
  }

  lemma CompatibleMeans(a: Family, b: Family)
    ensures FamiliesCompatible(a, b) <==> MayMix(a, b)
  {
    SamePair(a, b, MatchTotal, TeamTotal);
    SamePair(a, b, MatchTotal, AsianTotal);
    SamePair(a, b, TeamTotal, AsianTotal);
    SamePair(a, b, MatchResult, DoubleChance);
    SamePair(a, b, MatchTotal, Btts);
  }

  // Different selections whose families may be combined.
  ghost predicate FitTogether(legs: seq<PricedSelection>) {
    forall i, j :: 0 <= i < j < |legs| ==>
      legs[i].leg.selection != legs[j].leg.selection && MayMix(legs[i].leg.selection.family, legs[j].leg.selection.family)
  }

  lemma AcceptableMeans(legs: seq<PricedSelection>)
    ensures Acceptable(legs) <==> FitTogether(legs)
  {
    forall i, j | 0 <= i < j < |legs|
      ensures FamiliesCompatible(legs[i].leg.selection.family, legs[j].leg.selection.family)
         <==> MayMix(legs[i].leg.selection.family, legs[j].leg.selection.family)
    {
      CompatibleMeans(legs[i].leg.selection.family, legs[j].leg.selection.family);
    }
  }

  // ---------------------------------------------------------------- one candidate

  predicate ById(a: PricedSelection, b: PricedSelection) {
    StrLess(a.leg.id, b.leg.id)
  }

  function IdOf(p: PricedSelection): string {
    p.leg.id
  }

  function MakeCandidate(legs: seq<PricedSelection>): Candidate {
    var sorted := Sort(ById, legs);
    if |sorted| == 0 then Candidate(CandidateKey("", FullMatch, []), [])
    else Candidate(CandidateKey(sorted[0].eventId, sorted[0].leg.selection.period, Map(IdOf, sorted)), sorted)
  }

  function KeyOf(c: Candidate): CandidateKey {
    c.key
  }

  function Picked<T>(items: seq<T>, places: seq<nat>): (r: seq<T>)
    requires forall i :: 0 <= i < |places| ==> places[i] < |items|
    ensures |r| == |places| && forall i :: 0 <= i < |places| ==> r[i] == items[places[i]]
  {
    seq(|places|, i requires 0 <= i < |places| => items[places[i]])
  }

  // ---------------------------------------------------------------- the search

  type Accept = seq<PricedSelection> -> bool
  type Make = seq<PricedSelection> -> Candidate
  type Group = seq<PricedSelection>

  // The candidate of an accepted k-subset of a group.
  ghost predicate IsPick(accept: Accept, make: Make, group: Group, k: nat, c: seq<nat>, x: Candidate) {
    && Combinations.IsCombination(c, k, 0, |group|)
    && accept(Picked(group, c)) && x == make(Picked(group, c))
  }

  ghost predicate FromGroup(accept: Accept, make: Make, group: Group, lo: int, hi: int, x: Candidate) {
    exists k: nat, c :: lo <= k <= hi && IsPick(accept, make, group, k, c, x)
  }

  // Every accepted k-subset of the group has its key among the keys.
  ghost predicate SizeDone(accept: Accept, make: Make, group: Group, k: nat, keys: set<CandidateKey>) {
    forall c, x :: IsPick(accept, make, group, k, c, x) ==> x.key in keys
  }

  ghost predicate GroupDone(accept: Accept, make: Make, group: Group, lo: int, hi: int, keys: set<CandidateKey>) {
    forall k: nat :: lo <= k <= hi ==> SizeDone(accept, make, group, k, keys)
  }

  // Candidates found so far, with room for more.
  ghost predicate Room(cands: seq<Candidate>, cap: int) {
    |cands| == 0 || |cands| < cap
  }

  ghost predicate Grown(before: seq<Candidate>, after: seq<Candidate>, full: bool, cap: int) {
    && before <= after && |after| <= Max(cap, 1)
    && (if full then |after| >= cap else Room(after, cap))
  }

  // One accepted subset: a candidate with a new key joins, and may fill the list.
  method TryOne(accept: Accept, make: Make, legs: seq<PricedSelection>, cap: int, cands: seq<Candidate>, keys: set<CandidateKey>)
    returns (more: seq<Candidate>, moreKeys: set<CandidateKey>, full: bool)
    requires OnePerKey(KeyOf, cands, keys) && Room(cands, cap)
    ensures OnePerKey(KeyOf, more, moreKeys) && keys <= moreKeys && Grown(cands, more, full, cap)
    ensures forall x :: x in more ==> x in cands || (accept(legs) && x == make(legs))
    ensures accept(legs) ==> make(legs).key in moreKeys
  {
    more, moreKeys, full := cands, keys, false;
    if accept(legs) {
      more, moreKeys := Add(KeyOf, cands, keys, make(legs));
      full := |more| > |cands| && |more| >= cap;
    }
  }

  method SearchSize(accept: Accept, make: Make, group: Group, size: nat, cap: int, cands: seq<Candidate>, keys: set<CandidateKey>)
    returns (more: seq<Candidate>, moreKeys: set<CandidateKey>, full: bool)
    requires OnePerKey(KeyOf, cands, keys) && Room(cands, cap)
    ensures OnePerKey(KeyOf, more, moreKeys) && keys <= moreKeys && Grown(cands, more, full, cap)
    ensures forall x :: x in more ==> x in cands || FromGroup(accept, make, group, size, size, x)
    ensures !full ==> SizeDone(accept, make, group, size, moreKeys)
  {
    more, moreKeys, full := cands, keys, false;
    var combos := Enumerate(|group|, size);
    for i := 0 to |combos|
      invariant OnePerKey(KeyOf, more, moreKeys) && keys <= moreKeys && Grown(cands, more, false, cap)
      invariant forall x :: x in more ==> x in cands || FromGroup(accept, make, group, size, size, x)
      invariant forall n, x :: 0 <= n < i && IsPick(accept, make, group, size, combos[n], x) ==> x.key in moreKeys
    {
      CombosAre(|group|, size, 0, i);
      var legs := Picked(group, combos[i]);
      assert accept(legs) ==> IsPick(accept, make, group, size, combos[i], make(legs));
      more, moreKeys, full := TryOne(accept, make, legs, cap, more, moreKeys);
      if full {
        return;
      }
    }
    forall c, x | IsPick(accept, make, group, size, c, x) ensures x.key in moreKeys {
      CombosComplete(|group|, size, 0, c);
      var n :| 0 <= n < |combos| && combos[n] == c;
    }
  }

  lemma FromGroupWidens(accept: Accept, make: Make, group: Group, size: nat, lo: int, hi: int, x: Candidate)
    requires lo <= size <= hi && FromGroup(accept, make, group, size, size, x)
    ensures FromGroup(accept, make, group, lo, hi, x)
  {
    var k: nat, c :| size <= k <= size && IsPick(accept, make, group, k, c, x);
  }

  lemma SizeStaysDone(accept: Accept, make: Make, group: Group, k: nat, keys: set<CandidateKey>, more: set<CandidateKey>)
    requires SizeDone(accept, make, group, k, keys) && keys <= more
    ensures SizeDone(accept, make, group, k, more)
  {
  }

  lemma GroupStaysDone(accept: Accept, make: Make, group: Group, lo: int, hi: int, keys: set<CandidateKey>, more: set<CandidateKey>)
    requires GroupDone(accept, make, group, lo, hi, keys) && keys <= more
    ensures GroupDone(accept, make, group, lo, hi, more)
  {
    forall k: nat | lo <= k <= hi ensures SizeDone(accept, make, group, k, more) {
      SizeStaysDone(accept, make, group, k, keys, more);
    }
  }

  method SearchGroup(accept: Accept, make: Make, group: Group, lo: nat, hi: int, cap: int, cands: seq<Candidate>,
      keys: set<CandidateKey>)
    returns (more: seq<Candidate>, moreKeys: set<CandidateKey>, full: bool)
    requires OnePerKey(KeyOf, cands, keys) && Room(cands, cap)
    ensures OnePerKey(KeyOf, more, moreKeys) && keys <= moreKeys && Grown(cands, more, full, cap)
    ensures forall x :: x in more ==> x in cands || FromGroup(accept, make, group, lo, hi, x)
    ensures !full ==> GroupDone(accept, make, group, lo, hi, moreKeys)
  {
    more, moreKeys, full := cands, keys, false;
    var size := lo;
    while size <= hi
      invariant lo <= size && OnePerKey(KeyOf, more, moreKeys) && keys <= moreKeys && Grown(cands, more, false, cap)
      invariant forall x :: x in more ==> x in cands || FromGroup(accept, make, group, lo, hi, x)
      invariant GroupDone(accept, make, group, lo, size - 1, moreKeys)
      decreases hi - size
    {
      ghost var was, wasKeys := more, moreKeys;
      more, moreKeys, full := SearchSize(accept, make, group, size, cap, more, moreKeys);
      forall x | x in more && x !in was ensures FromGroup(accept, make, group, lo, hi, x) {
        FromGroupWidens(accept, make, group, size, lo, hi, x);
      }
      if full {
        return;
      }
      GroupStaysDone(accept, make, group, lo, size - 1, wasKeys, moreKeys);
      size := size + 1;
    }
  }

  ghost predicate FromSome(accept: Accept, make: Make, groups: seq<Group>, lo: nat, maxLegs: int, x: Candidate) {
    exists g :: 0 <= g < |groups| && FromGroup(accept, make, groups[g], lo, Min(maxLegs, |groups[g]|), x)
  }

  // Every accepted subset of every group, of a size in range, has a candidate with its key.
  ghost predicate AllDone(accept: Accept, make: Make, groups: seq<Group>, lo: nat, maxLegs: int, keys: set<CandidateKey>) {
    forall g, k: nat, c, x :: 0 <= g < |groups| && lo <= k <= maxLegs && IsPick(accept, make, groups[g], k, c, x)
      ==> x.key in keys
  }

  lemma GroupsDone(accept: Accept, make: Make, groups: seq<Group>, lo: nat, maxLegs: int, keys: set<CandidateKey>)
    requires forall g :: 0 <= g < |groups| ==> GroupDone(accept, make, groups[g], lo, Min(maxLegs, |groups[g]|), keys)
    ensures AllDone(accept, make, groups, lo, maxLegs, keys)
  {
    forall g, k: nat, c, x | 0 <= g < |groups| && lo <= k <= maxLegs && IsPick(accept, make, groups[g], k, c, x)
      ensures x.key in keys
    {
      CombinationFits(c, k, 0, |groups[g]|);
      assert SizeDone(accept, make, groups[g], k, keys);
    }
  }

  method SearchAll(accept: Accept, make: Make, groups: seq<Group>, lo: nat, maxLegs: int, cap: int)
    returns (cands: seq<Candidate>, keys: set<CandidateKey>)
    ensures OnePerKey(KeyOf, cands, keys) && |cands| <= Max(cap, 1)
    ensures forall x :: x in cands ==> FromSome(accept, make, groups, lo, maxLegs, x)
    ensures |cands| < cap ==> AllDone(accept, make, groups, lo, maxLegs, keys)
  {
    var full := false;
    cands, keys := [], {};
    for g := 0 to |groups|
      invariant OnePerKey(KeyOf, cands, keys) && Grown([], cands, false, cap)
      invariant forall x :: x in cands ==> FromSome(accept, make, groups, lo, maxLegs, x)
      invariant forall h :: 0 <= h < g ==> GroupDone(accept, make, groups[h], lo, Min(maxLegs, |groups[h]|), keys)
    {
      ghost var wasKeys := keys;
      cands, keys, full := SearchGroup(accept, make, groups[g], lo, Min(maxLegs, |groups[g]|), cap, cands, keys);
      if full {
        return;
      }
      forall h | 0 <= h < g ensures GroupDone(accept, make, groups[h], lo, Min(maxLegs, |groups[h]|), keys) {
        GroupStaysDone(accept, make, groups[h], lo, Min(maxLegs, |groups[h]|), wasKeys, keys);
      }
    }
    GroupsDone(accept, make, groups, lo, maxLegs, keys);
  }

  // ---------------------------------------------------------------- the generator

  function EventPeriod(p: PricedSelection): (string, Period) {
    (p.eventId, p.leg.selection.period)
  }

  function Eligible(priced: seq<PricedSelection>, options: GeneratorOptions): seq<PricedSelection> {
    Filter((p: PricedSelection) => options.eventId.None? || p.eventId == options.eventId.value, priced)
  }

  function ItemsOf(g: Grouping.Group<(string, Period), PricedSelection>): Group {
    g.items
  }

  // The eligible selections of each event and period.
  function EventGroups(priced: seq<PricedSelection>, options: GeneratorOptions): seq<Group> {
    Map(ItemsOf, Groups(EventPeriod, Eligible(priced, options)))
  }

  function Smallest(options: GeneratorOptions): nat {
    Max(Or(options.minLegs, 2), 2)
  }

  function Largest(options: GeneratorOptions): int {
    Or(options.maxLegs, 3)
  }

  function Cap(options: GeneratorOptions): int {
    Or(options.maxCandidates, DEFAULT_MAX_CANDIDATES)
  }

  function KeysOf(cands: seq<Candidate>): set<CandidateKey> {
    set x | x in cands :: KeyOf(x)
  }

  lemma KeysAre(cands: seq<Candidate>, keys: set<CandidateKey>)
    requires OnePerKey(KeyOf, cands, keys)
    ensures keys == KeysOf(cands)
  {
    forall k | k in keys ensures k in KeysOf(cands) {
      assert Has(KeyOf, cands, k);
    }
  }

  // One candidate a key, each an accepted subset of a group; below the cap no accepted subset lacks its key.
  ghost predicate IsGeneration(priced: seq<PricedSelection>, options: GeneratorOptions, cands: seq<Candidate>) {
    var groups := EventGroups(priced, options);
    && OnePerKey(KeyOf, cands, KeysOf(cands)) && |cands| <= Max(Cap(options), 1)
    && (forall x :: x in cands ==> FromSome(Acceptable, MakeCandidate, groups, Smallest(options), Largest(options), x))
    && (|cands| < Cap(options) ==>
          AllDone(Acceptable, MakeCandidate, groups, Smallest(options), Largest(options), KeysOf(cands)))
  }

  method GenerateCandidates(priced: seq<PricedSelection>, options: GeneratorOptions) returns (cands: seq<Candidate>)
    ensures IsGeneration(priced, options, cands)
  {
    var groups := GroupBy(EventPeriod, Eligible(priced, options));
    var keys;
    cands, keys := SearchAll(Acceptable, MakeCandidate, Map(ItemsOf, groups), Smallest(options), Largest(options), Cap(options));
    KeysAre(cands, keys);
  }
}
