// What a coverage report lists: the overlaps of winning legs, and one rejection a reason.

module CoverageMeans {
  import opened Lines
  import opened Settlement
  import opened Coordinates
  import opened Grouping
  import opened Sequences
  import opened StateModel
  import opened Coverage
  import opened CoverageTheorems

  // ---------------------------------------------------------------- overlaps

  // The legs that win in a state and are on one market, in their order.
  ghost predicate WinnersOn(legs: seq<Leg>, vector: seq<SettlementResult>, metric: Metric, places: seq<nat>) {
    && metric.Metric? && |vector| == |legs|
    && (forall a, b :: 0 <= a < b < |places| ==> places[a] < places[b])
    && forall i: nat :: i in places <==>
         i < |legs| && WinsHalf(vector[i]) && legs[i].selection.family == metric.family && legs[i].selection.period == metric.period
         && legs[i].selection.participant == metric.participant
  }

  ghost predicate Names(legs: seq<Leg>, places: seq<nat>, ids: seq<string>) {
    |ids| == |places| && forall a :: 0 <= a < |places| ==> places[a] < |legs| && ids[a] == legs[places[a]].id
  }

  ghost predicate OverlapAt(legs: seq<Leg>, state: OutcomeState, metric: Metric, ids: seq<string>) {
    exists places: seq<nat> :: |places| >= 2 && WinnersOn(legs, state.vector, metric, places) && Names(legs, places, ids)
  }

  lemma {:induction false} WithAscends<K>(key: nat -> K, items: seq<nat>, k: K)
    requires forall a, b :: 0 <= a < b < |items| ==> items[a] < items[b]
    ensures forall a, b :: 0 <= a < b < |With(key, items, k)| ==> With(key, items, k)[a] < With(key, items, k)[b]
  {
    if |items| > 0 {
      var n := |items| - 1;
      WithAscends(key, items[..n], k);
      var front := With(key, items[..n], k);
      forall a | 0 <= a < |front| ensures front[a] < items[n] {
        assert front[a] in items[..n];
      }
    }
  }

  lemma GroupIsWinnersOn(legs: seq<Leg>, state: OutcomeState, metric: Metric)
    requires |state.vector| == |legs| && metric.Metric?
    ensures WinnersOn(legs, state.vector, metric, With(MetricAt(legs), Winners(state.vector), metric))
  {
    var winners := Winners(state.vector);
    var places := With(MetricAt(legs), winners, metric);
    WithAscends(MetricAt(legs), winners, metric);
    forall i: nat | i < |legs| && WinsHalf(state.vector[i]) && MetricOf(legs[i].selection) == metric ensures i in places {
      var a := PlacesFind(Winning, state.vector, i);
      WithComplete(MetricAt(legs), winners, metric, a);
    }
    forall i: nat | i in places ensures i < |legs| && WinsHalf(state.vector[i]) && MetricOf(legs[i].selection) == metric {
      var b :| 0 <= b < |places| && places[b] == i;
      assert i in winners;
      var a :| 0 <= a < |winners| && winners[a] == i;
    }
  }

  lemma HasPlace(xs: seq<nat>)
    ensures |xs| > 0 ==> exists i: nat :: i in xs
  {
    if |xs| > 0 {
      assert xs[0] in xs;
    }
  }

  lemma {:induction false} SameAscending(xs: seq<nat>, ys: seq<nat>)
    requires forall a, b :: 0 <= a < b < |xs| ==> xs[a] < xs[b]
    requires forall a, b :: 0 <= a < b < |ys| ==> ys[a] < ys[b]
    requires forall i: nat :: i in xs <==> i in ys
    ensures xs == ys
  {
    if |xs| == 0 {
      HasPlace(ys);
    } else {
      var n := |xs| - 1;
      assert xs[n] in ys;
      var m := |ys| - 1;
      assert ys[m] in xs;
      assert xs[n] == ys[m];
      forall i: nat ensures i in xs[..n] <==> i in ys[..m] {
        assert i in xs <==> i in xs[..n] || i == xs[n];
        assert i in ys <==> i in ys[..m] || i == ys[m];
      }
      SameAscending(xs[..n], ys[..m]);
    }
  }

  lemma ClashIs(legs: seq<Leg>, state: OutcomeState, metric: Metric, places: seq<nat>)
    requires |state.vector| == |legs|
    ensures Group(metric, places) in Clashes(legs, state)
       <==> places == With(MetricAt(legs), Winners(state.vector), metric) && |places| >= 2
  {
    var winners, groups := Winners(state.vector), MetricGroups(legs, state);
    GroupsAreGrouped(MetricAt(legs), winners);
    TwoWith(MetricAt(legs), winners, metric);
    if places == With(MetricAt(legs), winners, metric) && |places| >= 2 {
      assert |winners| >= 2;
      var i :| 0 <= i < |winners| && MetricAt(legs)(winners[i]) == metric;
      assert HasKey(groups, MetricAt(legs)(winners[i]));
      var g :| 0 <= g < |groups| && groups[g].key == metric;
      assert groups[g] == Group(metric, places);
    }
    if Group(metric, places) in Clashes(legs, state) {
      var g :| 0 <= g < |groups| && groups[g] == Group(metric, places);
    }
  }

  lemma ClashMetric(legs: seq<Leg>, state: OutcomeState, g: MetricGroup)
    requires |state.vector| == |legs| && g in Clashes(legs, state)
    ensures g.key.Metric?
  {
    ClashIs(legs, state, g.key, g.items);
    assert g == Group(g.key, g.items);
    assert g.items[0] in Winners(state.vector) && MetricAt(legs)(g.items[0]) == g.key;
  }

  lemma IdsName(legs: seq<Leg>, places: seq<nat>)
    requires forall a :: 0 <= a < |places| ==> places[a] < |legs|
    ensures Names(legs, places, IdsAt(legs, places))
    ensures forall ids :: Names(legs, places, ids) ==> ids == IdsAt(legs, places)
  {
  }

  lemma OverlapFound(legs: seq<Leg>, state: OutcomeState, metric: Metric, ids: seq<string>, a: nat)
    requires |state.vector| == |legs| && a < |Clashes(legs, state)|
    requires ClashOverlaps(legs, state)[a] == SameMetric(state, metric, ids)
    ensures OverlapAt(legs, state, metric, ids)
  {
    var g := Clashes(legs, state)[a];
    var places: seq<nat> := g.items;
    assert g == Group(metric, places);
    ClashMetric(legs, state, g);
    ClashIs(legs, state, metric, places);
    GroupIsWinnersOn(legs, state, metric);
    PlacesFit(legs, state, metric, places);
    IdsName(legs, places);
  }

  lemma OverlapListed(legs: seq<Leg>, state: OutcomeState, metric: Metric, ids: seq<string>, places: seq<nat>) returns (a: nat)
    requires |places| >= 2 && WinnersOn(legs, state.vector, metric, places) && Names(legs, places, ids)
    ensures a < |ClashOverlaps(legs, state)| && ClashOverlaps(legs, state)[a] == SameMetric(state, metric, ids)
  {
    var clashes := Clashes(legs, state);
    GroupIsWinnersOn(legs, state, metric);
    SameAscending(places, With(MetricAt(legs), Winners(state.vector), metric));
    ClashIs(legs, state, metric, places);
    IdsName(legs, places);
    a :| 0 <= a < |clashes| && clashes[a] == Group(metric, places);
  }

  lemma SameMetricIn(legs: seq<Leg>, state: OutcomeState, overlap: Overlap)
    requires overlap.SameMetric?
    ensures overlap in StateOverlaps(legs, state) <==> overlap in ClashOverlaps(legs, state)
  {
  }

  // In a state, the overlaps on one metric are those of the markets on which two legs or more win, each naming them all.
  lemma StateOverlapsAre(legs: seq<Leg>, state: OutcomeState, metric: Metric, ids: seq<string>)
    requires |state.vector| == |legs|
    ensures SameMetric(state, metric, ids) in StateOverlaps(legs, state) <==> OverlapAt(legs, state, metric, ids)
  {
    var listed := ClashOverlaps(legs, state);
    SameMetricIn(legs, state, SameMetric(state, metric, ids));
    if SameMetric(state, metric, ids) in listed {
      var a :| 0 <= a < |listed| && listed[a] == SameMetric(state, metric, ids);
      OverlapFound(legs, state, metric, ids, a);
    }
    if OverlapAt(legs, state, metric, ids) {
      var places: seq<nat> :| |places| >= 2 && WinnersOn(legs, state.vector, metric, places) && Names(legs, places, ids);
      var a := OverlapListed(legs, state, metric, ids, places);
    }
  }

  lemma PlacesFit(legs: seq<Leg>, state: OutcomeState, metric: Metric, places: seq<nat>)
    requires WinnersOn(legs, state.vector, metric, places)
    ensures forall a :: 0 <= a < |places| ==> places[a] < |legs|
  {
    forall a | 0 <= a < |places| ensures places[a] < |legs| {
      assert places[a] in places;
    }
  }

  lemma {:induction false} InFlatMapAt<T, U>(f: T -> seq<U>, xs: seq<T>, y: U)
    ensures y in FlatMap(f, xs) <==> exists i :: 0 <= i < |xs| && y in f(xs[i])
  {
    if |xs| > 0 {
      var n := |xs| - 1;
      InFlatMapAt(f, xs[..n], y);
      assert forall i :: 0 <= i < n ==> xs[..n][i] == xs[i];
    }
  }

  lemma OverlapState(legs: seq<Leg>, state: OutcomeState, overlap: Overlap)
    requires overlap in StateOverlaps(legs, state)
    ensures overlap.state == state
  {
  }

  lemma ListedByState(legs: seq<Leg>, states: seq<OutcomeState>, overlap: Overlap)
    ensures overlap in FlatMap(OverlapsOf(legs), states)
       <==> overlap.state in states && overlap in StateOverlaps(legs, overlap.state)
  {
    InFlatMapAt(OverlapsOf(legs), states, overlap);
    forall i | 0 <= i < |states| && overlap in OverlapsOf(legs)(states[i]) ensures states[i] == overlap.state {
      OverlapState(legs, states[i], overlap);
    }
  }

  // So in a report, over all states.
  lemma OverlapsMean(legs: seq<Leg>, states: seq<OutcomeState>, report: Report, state: OutcomeState, metric: Metric,
      ids: seq<string>)
    requires Aligned(legs, states) && report == Review(legs, states)
    ensures SameMetric(state, metric, ids) in report.overlaps <==> state in states && OverlapAt(legs, state, metric, ids)
  {
    ListedByState(legs, states, SameMetric(state, metric, ids));
    if state in states {
      var i :| 0 <= i < |states| && states[i] == state;
      StateOverlapsAre(legs, state, metric, ids);
    }
  }

  // ---------------------------------------------------------------- overlaps across metrics

  // Two legs on different markets win.
  ghost predicate CrossWin(legs: seq<Leg>, vector: seq<SettlementResult>) {
    exists i, j :: 0 <= i < |vector| && 0 <= j < |vector| && WinPair(legs, vector, i, j)
  }

  ghost predicate WinPair(legs: seq<Leg>, vector: seq<SettlementResult>, i: nat, j: nat)
    requires i < |vector| && j < |vector|
  {
    |vector| == |legs| && WinsHalf(vector[i]) && WinsHalf(vector[j]) && !SameMarket(legs[i].selection, legs[j].selection)
  }

  // All legs that win in a state, in their order.
  ghost predicate AllWinners(vector: seq<SettlementResult>, places: seq<nat>) {
    && (forall a, b :: 0 <= a < b < |places| ==> places[a] < places[b])
    && forall i: nat :: i in places <==> i < |vector| && WinsHalf(vector[i])
  }

  ghost predicate CrossAt(legs: seq<Leg>, state: OutcomeState, ids: seq<string>) {
    CrossWin(legs, state.vector) && exists places: seq<nat> :: AllWinners(state.vector, places) && Names(legs, places, ids)
  }

  lemma WinnersAreAll(vector: seq<SettlementResult>)
    ensures AllWinners(vector, Winners(vector))
  {
    forall i: nat | i < |vector| && WinsHalf(vector[i]) ensures i in Winners(vector) {
      var a := PlacesFind(Winning, vector, i);
    }
    forall i: nat | i in Winners(vector) ensures i < |vector| && WinsHalf(vector[i]) {
      var a :| 0 <= a < |Winners(vector)| && Winners(vector)[a] == i;
    }
  }

  lemma GroupHead(legs: seq<Leg>, state: OutcomeState, g: nat) returns (i: nat)
    requires |state.vector| == |legs| && g < |MetricGroups(legs, state)|
    ensures i < |legs| && WinsHalf(state.vector[i]) && MetricOf(legs[i].selection) == MetricGroups(legs, state)[g].key
  {
    var winners, groups := Winners(state.vector), MetricGroups(legs, state);
    GroupsAreGrouped(MetricAt(legs), winners);
    WinnersAreAll(state.vector);
    i := groups[g].items[0];
    assert i in winners && MetricAt(legs)(i) == groups[g].key;
  }

  lemma TwoGroups(legs: seq<Leg>, state: OutcomeState, i: nat, j: nat)
    requires i < |state.vector| && j < |state.vector| && WinPair(legs, state.vector, i, j)
    ensures |MetricGroups(legs, state)| > 1 && |Winners(state.vector)| >= 2
  {
    var winners, groups := Winners(state.vector), MetricGroups(legs, state);
    GroupsAreGrouped(MetricAt(legs), winners);
    var a := PlacesFind(Winning, state.vector, i);
    var b := PlacesFind(Winning, state.vector, j);
    assert HasKey(groups, MetricAt(legs)(winners[a])) && HasKey(groups, MetricAt(legs)(winners[b]));
    var g :| 0 <= g < |groups| && groups[g].key == MetricAt(legs)(winners[a]);
    var h :| 0 <= h < |groups| && groups[h].key == MetricAt(legs)(winners[b]);
    assert g != h && a != b;
  }

  lemma CrossIs(legs: seq<Leg>, state: OutcomeState)
    requires |state.vector| == |legs|
    ensures |CrossOverlaps(legs, state)| <= 1
    ensures |CrossOverlaps(legs, state)| == 1 <==> CrossWin(legs, state.vector)
  {
    var groups := MetricGroups(legs, state);
    if CrossWin(legs, state.vector) {
      var i, j :| 0 <= i < |state.vector| && 0 <= j < |state.vector| && WinPair(legs, state.vector, i, j);
      TwoGroups(legs, state, i, j);
    }
    if |groups| > 1 {
      GroupsAreGrouped(MetricAt(legs), Winners(state.vector));
      var i := GroupHead(legs, state, 0);
      var j := GroupHead(legs, state, 1);
      assert WinPair(legs, state.vector, i, j);
    }
  }

  lemma CrossIn(legs: seq<Leg>, state: OutcomeState, overlap: Overlap)
    requires overlap.CrossMetric?
    ensures overlap in StateOverlaps(legs, state) <==> overlap in CrossOverlaps(legs, state)
  {
  }

  lemma CrossNames(legs: seq<Leg>, state: OutcomeState, overlap: Overlap)
    requires |state.vector| == |legs| && overlap in CrossOverlaps(legs, state)
    ensures overlap.CrossMetric? && CrossAt(legs, state, overlap.legIds)
  {
    CrossIs(legs, state);
    WinnersAreAll(state.vector);
    IdsName(legs, Winners(state.vector));
    assert overlap == CrossOverlaps(legs, state)[0];
  }

  // An overlap across metrics is reported for a state if and only if two legs on different markets win in it, and
  // names all the legs that do.
  lemma CrossOverlapsMean(legs: seq<Leg>, states: seq<OutcomeState>, report: Report, state: OutcomeState)
    requires Aligned(legs, states) && report == Review(legs, states) && state in states
    ensures (exists overlap :: overlap in report.overlaps && overlap.CrossMetric? && overlap.state == state)
       <==> CrossWin(legs, state.vector)
    ensures forall overlap :: overlap in report.overlaps && overlap.CrossMetric? && overlap.state == state
              ==> CrossAt(legs, state, overlap.legIds)
  {
    var k :| 0 <= k < |states| && states[k] == state;
    CrossIs(legs, state);
    forall overlap: Overlap | overlap.CrossMetric? && overlap.state == state
      ensures overlap in report.overlaps <==> overlap in CrossOverlaps(legs, state)
      ensures overlap in report.overlaps ==> CrossAt(legs, state, overlap.legIds)
    {
      ListedByState(legs, states, overlap);
      CrossIn(legs, state, overlap);
      if overlap in CrossOverlaps(legs, state) {
        CrossNames(legs, state, overlap);
      }
    }
    if CrossWin(legs, state.vector) {
      var overlap := CrossOverlaps(legs, state)[0];
      assert overlap in CrossOverlaps(legs, state);
      CrossNames(legs, state, overlap);
    }
  }

  // ---------------------------------------------------------------- rejections

  // The first verdict of a reason, with how often the reason came up.
  ghost predicate EntryOf(vs: seq<Verdict>, e: Verdict) {
    && e.count == Some(Count(HasReason(e.reason), vs))
    && exists i :: 0 <= i < |vs| && e == vs[i].(count := e.count) && forall k :: 0 <= k < i ==> vs[k].reason != e.reason
  }

  ghost predicate OneAReason(rejections: seq<Verdict>) {
    forall i, j :: 0 <= i < j < |rejections| ==> rejections[i].reason != rejections[j].reason
  }

  lemma EntryStays(vs: seq<Verdict>, v: Verdict, e: Verdict)
    requires EntryOf(vs, e)
    ensures EntryOf(vs + [v], if v.reason == e.reason then e.(count := Some(e.count.value + 1)) else e)
  {
    CountSnoc(HasReason(e.reason), vs, v);
    var i :| 0 <= i < |vs| && e == vs[i].(count := e.count) && forall k :: 0 <= k < i ==> vs[k].reason != e.reason;
    var all := vs + [v];
    assert all[i] == vs[i] && forall k :: 0 <= k < i ==> all[k] == vs[k];
  }

  lemma {:induction false} NoneCounted(vs: seq<Verdict>, reason: RejectionReason)
    requires forall i :: 0 <= i < |vs| ==> vs[i].reason != reason
    ensures Count(HasReason(reason), vs) == 0
  {
    if |vs| > 0 {
      NoneCounted(vs[..|vs| - 1], reason);
    }
  }

  lemma EntryStarts(vs: seq<Verdict>, v: Verdict)
    requires forall i :: 0 <= i < |vs| ==> vs[i].reason != v.reason
    ensures EntryOf(vs + [v], v.(count := Some(1)))
  {
    NoneCounted(vs, v.reason);
    CountSnoc(HasReason(v.reason), vs, v);
    var all := vs + [v];
    assert all[|vs|] == v && forall k :: 0 <= k < |vs| ==> all[k] == vs[k];
  }

  ghost predicate HasEntry(r: seq<Verdict>, reason: RejectionReason) {
    exists k :: 0 <= k < |r| && r[k].reason == reason
  }

  ghost predicate AllEntries(vs: seq<Verdict>, r: seq<Verdict>) {
    forall i :: 0 <= i < |r| ==> EntryOf(vs, r[i])
  }

  ghost predicate AllEntered(vs: seq<Verdict>, r: seq<Verdict>) {
    forall i :: 0 <= i < |vs| ==> HasEntry(r, vs[i].reason)
  }

  lemma NoneYet(vs: seq<Verdict>, r: seq<Verdict>, reason: RejectionReason)
    requires AllEntered(vs, r) && FirstWith(r, reason) == |r|
    ensures forall i :: 0 <= i < |vs| ==> vs[i].reason != reason
  {
  }

  lemma EnteredMore(vs: seq<Verdict>, v: Verdict, r: seq<Verdict>, after: seq<Verdict>)
    requires AllEntered(vs, r) && HasEntry(after, v.reason) && |r| <= |after|
    requires forall k :: 0 <= k < |r| ==> after[k].reason == r[k].reason
    ensures AllEntered(vs + [v], after)
  {
    var all := vs + [v];
    forall i | 0 <= i < |all| ensures HasEntry(after, all[i].reason) {
      if i < |vs| {
        assert HasEntry(r, vs[i].reason);
        var k :| 0 <= k < |r| && r[k].reason == vs[i].reason;
        assert after[k].reason == all[i].reason;
      }
    }
  }

  lemma EntriesNew(vs: seq<Verdict>, r: seq<Verdict>, v: Verdict, entry: Verdict, after: seq<Verdict>)
    requires AllEntries(vs, r) && AllEntered(vs, r) && FirstWith(r, v.reason) == |r|
    requires entry == v.(count := Some(1)) && after == r + [entry]
    ensures AllEntries(vs + [v], after)
  {
    NoneYet(vs, r, v.reason);
    EntryStarts(vs, v);
    forall i | 0 <= i < |after| ensures EntryOf(vs + [v], after[i]) {
      if i < |r| {
        assert after[i].reason != v.reason;
        EntryStays(vs, v, r[i]);
      }
    }
  }

  lemma EntriesAgain(vs: seq<Verdict>, r: seq<Verdict>, v: Verdict, at: nat, again: Verdict, after: seq<Verdict>)
    requires AllEntries(vs, r) && OneAReason(r) && at < |r| && r[at].reason == v.reason
    requires again == r[at].(count := Some(CountOf(r[at]) + 1)) && after == r[at := again]
    ensures AllEntries(vs + [v], after)
  {
    forall i | 0 <= i < |after| ensures EntryOf(vs + [v], after[i]) {
      EntryStays(vs, v, r[i]);
    }
  }

  lemma ReasonsStay(r: seq<Verdict>, at: nat, again: Verdict)
    requires OneAReason(r) && at < |r| && again.reason == r[at].reason
    ensures OneAReason(r[at := again])
  {
  }

  lemma ReasonsNew(r: seq<Verdict>, v: Verdict, entry: Verdict)
    requires OneAReason(r) && FirstWith(r, v.reason) == |r| && entry.reason == v.reason
    ensures OneAReason(r + [entry])
  {
  }

  ghost predicate Merges(vs: seq<Verdict>, r: seq<Verdict>) {
    OneAReason(r) && AllEntries(vs, r) && AllEntered(vs, r)
  }

  lemma PushedNew(vs: seq<Verdict>, r: seq<Verdict>, v: Verdict, entry: Verdict, after: seq<Verdict>)
    requires Merges(vs, r) && FirstWith(r, v.reason) == |r| && entry == v.(count := Some(1)) && after == r + [entry]
    ensures Merges(vs + [v], after)
  {
    assert after[|r|].reason == v.reason;
    EnteredMore(vs, v, r, after);
    EntriesNew(vs, r, v, entry, after);
    ReasonsNew(r, v, entry);
  }

  lemma PushedAgain(vs: seq<Verdict>, r: seq<Verdict>, v: Verdict, at: nat, again: Verdict, after: seq<Verdict>)
    requires Merges(vs, r) && at < |r| && r[at].reason == v.reason
    requires again == r[at].(count := Some(CountOf(r[at]) + 1)) && after == r[at := again]
    ensures Merges(vs + [v], after)
  {
    assert after[at].reason == v.reason;
    EnteredMore(vs, v, r, after);
    EntriesAgain(vs, r, v, at, again, after);
    ReasonsStay(r, at, again);
  }

  lemma PushedMeans(vs: seq<Verdict>, r: seq<Verdict>, v: Verdict)
    requires Merges(vs, r)
    ensures Merges(vs + [v], PushRejection(r, v))
  {
    var at := FirstWith(r, v.reason);
    if at == |r| {
      PushedNew(vs, r, v, v.(count := Some(1)), PushRejection(r, v));
    } else {
      PushedAgain(vs, r, v, at, r[at].(count := Some(CountOf(r[at]) + 1)), PushRejection(r, v));
    }
  }

  // Merged rejections are one a reason that came up: the first verdict of it, with the number of them.
  lemma {:induction false} RejectionsMean(vs: seq<Verdict>)
    ensures Merges(vs, PushAll([], vs))
  {
    if |vs| > 0 {
      var n := |vs| - 1;
      RejectionsMean(vs[..n]);
      PushedMeans(vs[..n], PushAll([], vs[..n]), vs[n]);
      assert vs == vs[..n] + [vs[n]];
    }
  }
}
