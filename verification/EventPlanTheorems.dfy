// A plan partitions the events, folds only confirmed pairs of disjoint providers, ignores the order
// of its input, and leaves nothing to fold once it is applied.

module EventPlanTheorems {
  import opened Lines
  import opened Sequences
  import opened Sorting
  import opened Matching
  import opened EventPlan

  ghost predicate UniqueEvents(events: seq<Event>) {
    forall i, j :: 0 <= i < j < |events| ==> events[i].id != events[j].id
  }

  // ---------------------------------------------------------------- the winner order

  lemma BeforeIsOrder(priority: seq<string>)
    ensures StrictOrder(Order(priority))
  {
    var less := Order(priority);
    forall x ensures !less(x, x) {
      StrLessIrreflexive(x.id);
    }
    forall x, y, z | less(x, y) && less(y, z) ensures less(x, z) {
      BeforeTransitive(x, y, z, priority);
    }
  }

  lemma BeforeTransitive(x: Event, y: Event, z: Event, priority: seq<string>)
    requires Before(x, y, priority) && Before(y, z, priority)
    ensures Before(x, z, priority)
  {
    if Rank(x, priority) == Rank(y, priority) == Rank(z, priority) {
      if Created(x) == Created(y) == Created(z) {
        StrLessTransitive(x.id, y.id, z.id);
      } else if Created(x) != Created(y) && Created(y) != Created(z) {
        StrLessTransitive(Created(x), Created(y), Created(z));
        StrLessIrreflexive(Created(x));
      }
    }
  }

  lemma UniqueEventsComparable(events: seq<Event>, priority: seq<string>)
    requires UniqueEvents(events)
    ensures Comparable(Order(priority), events)
  {
    var less := Order(priority);
    forall i, j | 0 <= i < j < |events| ensures less(events[i], events[j]) || less(events[j], events[i]) {
      StrLessTotal(Created(events[i]), Created(events[j]));
      StrLessTotal(events[i].id, events[j].id);
    }
  }

  // The plan depends on which events there are, not on the order they are listed in.
  lemma PlanIgnoresOrder(assess: Assess, policy: Policy, priority: seq<string>, events: seq<Event>, others: seq<Event>)
    requires UniqueEvents(events) && UniqueEvents(others) && multiset(events) == multiset(others)
    ensures PlanOf(assess, policy, priority, events) == PlanOf(assess, policy, priority, others)
  {
    BeforeIsOrder(priority);
    UniqueEventsComparable(events, priority);
    UniqueEventsComparable(others, priority);
    SortIgnoresOrder(Order(priority), events, others);
  }

  // ---------------------------------------------------------------- what seating keeps

  function Flat(groups: Groups): seq<Event> {
    if |groups| == 0 then []
    else
      var n := |groups| - 1;
      Flat(groups[..n]) + groups[n]
  }

  lemma FlatStep(groups: Groups, front: Groups, last: seq<Event>)
    requires |groups| > 0 && front == groups[..|groups| - 1] && last == groups[|groups| - 1]
    ensures multiset(Flat(groups)) == multiset(Flat(front)) + multiset(last)
  {
  }

  lemma {:induction false} FlatUpdate(groups: Groups, i: nat, e: Event)
    requires i < |groups|
    ensures multiset(Flat(groups[i := groups[i] + [e]])) == multiset(Flat(groups)) + multiset{e}
  {
    var n := |groups| - 1;
    var after: Groups := groups[i := groups[i] + [e]];
    var front: Groups := groups[..n];
    FlatStep(groups, front, groups[n]);
    if i < n {
      var changed: Groups := front[i := groups[i] + [e]];
      assert after[..n] == changed;
      FlatStep(after, changed, groups[n]);
      FlatUpdate(front, i, e);
    } else {
      assert after[..n] == front;
      FlatStep(after, front, groups[n] + [e]);
    }
  }

  lemma FlatAppend(groups: Groups, e: Event)
    ensures Flat(groups + [[e]]) == Flat(groups) + [e]
  {
    assert (groups + [[e]])[..|groups|] == groups;
  }

  lemma SeatFlat(judge: Verdicts, groups: Groups, e: Event)
    ensures multiset(Flat(Seat(judge, groups, e))) == multiset(Flat(groups)) + multiset{e}
  {
    var best := Best(judge, Roots(groups), e, Confirmed);
    if best.Some? {
      FlatUpdate(groups, best.value, e);
    } else {
      FlatAppend(groups, e);
    }
  }

  // Members are confirmed against their root, and no root against an earlier root.
  ghost predicate WellJudged(judge: Verdicts, groups: Groups) {
    && (forall g, k :: 0 <= g < |groups| && 1 <= k < |groups[g]| ==> judge(groups[g][k], groups[g][0]).kind == Confirmed)
    && (forall h, g :: 0 <= h < g < |groups| ==> judge(groups[g][0], groups[h][0]).kind != Confirmed)
  }

  // Roots are in winner order, and members come after their root.
  ghost predicate WellOrdered(less: (Event, Event) -> bool, groups: Groups) {
    && (forall g, k :: 0 <= g < |groups| && 1 <= k < |groups[g]| ==> less(groups[g][0], groups[g][k]))
    && (forall h, g :: 0 <= h < g < |groups| ==> less(groups[h][0], groups[g][0]))
  }

  lemma SeatJudged(judge: Verdicts, groups: Groups, e: Event)
    requires WellJudged(judge, groups)
    ensures WellJudged(judge, Seat(judge, groups, e))
  {
    var roots := Roots(groups);
    var best := Best(judge, roots, e, Confirmed);
    if best.None? {
      assert forall h :: 0 <= h < |groups| ==> judge(e, roots[h]).kind != Confirmed;
    } else {
      assert judge(e, roots[best.value]).kind == Confirmed;
    }
  }

  lemma SeatOrdered(judge: Verdicts, less: (Event, Event) -> bool, groups: Groups, e: Event)
    requires WellOrdered(less, groups) && forall g :: 0 <= g < |groups| ==> less(groups[g][0], e)
    ensures WellOrdered(less, Seat(judge, groups, e))
  {
  }

  lemma RootInFlat(groups: Groups, g: nat)
    requires g < |groups|
    ensures groups[g][0] in multiset(Flat(groups))
  {
    MemberInFlat(groups, g, 0);
  }

  lemma {:induction false} MemberInFlat(groups: Groups, g: nat, k: nat)
    requires g < |groups| && k < |groups[g]|
    ensures groups[g][k] in Flat(groups)
  {
    var n := |groups| - 1;
    if g < n {
      MemberInFlat(groups[..n], g, k);
    } else {
      assert Flat(groups)[|Flat(groups[..n])| + k] == groups[g][k];
    }
  }

  function IdsOf(events: seq<Event>): set<string> {
    set e | e in events :: e.id
  }

  // What seating a list of events keeps; no event is lost.
  ghost predicate Keeps(judge: Verdicts, less: (Event, Event) -> bool, xs: seq<Event>, s: Seating) {
    && WellJudged(judge, s.groups) && WellOrdered(less, s.groups)
    && multiset(Flat(s.groups)) == multiset(xs) && s.seated == IdsOf(xs)
  }

  lemma RootsAreAmong(groups: Groups, xs: seq<Event>, g: nat)
    requires g < |groups| && multiset(Flat(groups)) == multiset(xs)
    ensures groups[g][0] in xs
  {
    RootInFlat(groups, g);
    assert groups[g][0] in multiset(xs);
  }

  lemma VisitKeeps(judge: Verdicts, less: (Event, Event) -> bool, xs: seq<Event>, s: Seating, e: Event)
    requires Keeps(judge, less, xs, s) && e.id !in IdsOf(xs) && forall x :: x in xs ==> less(x, e)
    ensures Keeps(judge, less, xs + [e], Visit(judge, s, e))
  {
    forall g | 0 <= g < |s.groups| ensures less(s.groups[g][0], e) {
      RootsAreAmong(s.groups, xs, g);
    }
    SeatJudged(judge, s.groups, e);
    SeatOrdered(judge, less, s.groups, e);
    SeatFlat(judge, s.groups, e);
    assert IdsOf(xs + [e]) == IdsOf(xs) + {e.id};
  }

  lemma LastComesAfter(less: (Event, Event) -> bool, ordered: seq<Event>, front: seq<Event>, e: Event)
    requires UniqueEvents(ordered) && Ascending(less, ordered) && ordered == front + [e]
    ensures UniqueEvents(front) && Ascending(less, front)
    ensures e.id !in IdsOf(front) && forall x :: x in front ==> less(x, e)
  {
    var n := |front|;
    assert ordered[n] == e && forall i :: 0 <= i < n ==> ordered[i] == front[i];
    forall x | x in front ensures less(x, e) && x.id != e.id {
      var i :| 0 <= i < n && front[i] == x;
      assert less(ordered[i], ordered[n]);
    }
  }

  // Seating unique events in winner order keeps all of it.
  lemma {:induction false} SeatingKeeps(judge: Verdicts, less: (Event, Event) -> bool, ordered: seq<Event>)
    requires UniqueEvents(ordered) && Ascending(less, ordered)
    ensures Keeps(judge, less, ordered, SeatAll(judge, ordered))
  {
    if |ordered| == 0 {
      assert IdsOf(ordered) == {};
    } else {
      var n := |ordered| - 1;
      var front, e := ordered[..n], ordered[n];
      LastComesAfter(less, ordered, front, e);
      SeatingKeeps(judge, less, front);
      VisitKeeps(judge, less, front, SeatAll(judge, front), e);
      assert ordered == front + [e];
    }
  }

  // ---------------------------------------------------------------- the groups behind a plan

  lemma {:induction false} SortKeepsUnique(less: (Event, Event) -> bool, events: seq<Event>)
    requires UniqueEvents(events) && StrictOrder(less) && Comparable(less, events)
    ensures UniqueEvents(Sort(less, events)) && Ascending(less, Sort(less, events))
  {
    var sorted := Sort(less, events);
    SortAscends(less, events);
    SortHolds(less, events);
    forall i, j | 0 <= i < j < |sorted| ensures sorted[i].id != sorted[j].id {
      assert sorted[i] in multiset(sorted) && sorted[j] in multiset(sorted);
      assert sorted[i] in events && sorted[j] in events;
      assert less(sorted[i], sorted[j]) && sorted[i] != sorted[j];
    }
  }

  // The groups of a plan: judged, ordered, and holding exactly the events.
  lemma PlanGroups(assess: Assess, policy: Policy, priority: seq<string>, events: seq<Event>) returns (groups: Groups)
    requires UniqueEvents(events)
    ensures WellJudged(Judge(assess, policy), groups) && WellOrdered(Order(priority), groups)
    ensures multiset(Flat(groups)) == multiset(events)
    ensures PlanOf(assess, policy, priority, events).merges == AllMerges(assess, groups)
    ensures PlanOf(assess, policy, priority, events).standalone == Standalone(groups)
  {
    var less := Order(priority);
    BeforeIsOrder(priority);
    UniqueEventsComparable(events, priority);
    SortKeepsUnique(less, events);
    SortHolds(less, events);
    SeatingKeeps(Judge(assess, policy), less, Sort(less, events));
    groups := SeatAll(Judge(assess, policy), Sort(less, events)).groups;
  }

  // ---------------------------------------------------------------- partition

  function EventId(e: Event): string {
    e.id
  }

  function LoserId(m: Merge): string {
    m.loser
  }

  // The roots that something folds into.
  function Winners(groups: Groups): seq<string> {
    if |groups| == 0 then []
    else
      var n := |groups| - 1;
      Winners(groups[..n]) + if |groups[n]| > 1 then [groups[n][0].id] else []
  }

  lemma MembersSplit(assess: Assess, members: seq<Event>)
    requires |members| > 0
    ensures multiset(Map(EventId, members)) == multiset{members[0].id} + multiset(Map(LoserId, MergesOf(assess, members)))
  {
    var losers := Map(LoserId, MergesOf(assess, members));
    assert Map(EventId, members) == [members[0].id] + losers;
  }

  // Every event is a standalone, a winner or a loser, and is so once.
  lemma {:induction false} GroupsPartition(assess: Assess, groups: Groups)
    ensures multiset(Map(EventId, Flat(groups)))
         == multiset(Standalone(groups)) + multiset(Winners(groups)) + multiset(Map(LoserId, AllMerges(assess, groups)))
  {
    if |groups| > 0 {
      var n := |groups| - 1;
      GroupsPartition(assess, groups[..n]);
      MembersSplit(assess, groups[n]);
      MapSplit(EventId, Flat(groups[..n]), groups[n]);
      MapSplit(LoserId, AllMerges(assess, groups[..n]), MergesOf(assess, groups[n]));
    }
  }

  ghost predicate WinsIn(merges: seq<Merge>, id: string) {
    exists i :: 0 <= i < |merges| && merges[i].winner == id
  }

  lemma WinsInSplit(xs: seq<Merge>, ys: seq<Merge>, id: string)
    ensures WinsIn(xs + ys, id) <==> WinsIn(xs, id) || WinsIn(ys, id)
  {
    assert forall i :: 0 <= i < |xs| ==> (xs + ys)[i] == xs[i];
    assert forall i :: 0 <= i < |ys| ==> (xs + ys)[|xs| + i] == ys[i];
  }

  lemma WinsInMembers(assess: Assess, members: seq<Event>, id: string)
    requires |members| > 0
    ensures WinsIn(MergesOf(assess, members), id) <==> |members| > 1 && members[0].id == id
  {
    if |members| > 1 {
      assert MergesOf(assess, members)[0].winner == members[0].id;
    }
  }

  lemma {:induction false} WinnersFold(assess: Assess, groups: Groups, id: string)
    ensures id in Winners(groups) <==> WinsIn(AllMerges(assess, groups), id)
  {
    if |groups| > 0 {
      var n := |groups| - 1;
      WinnersFold(assess, groups[..n], id);
      WinsInSplit(AllMerges(assess, groups[..n]), MergesOf(assess, groups[n]), id);
      WinsInMembers(assess, groups[n], id);
    }
  }

  lemma {:induction false} UniqueIdsOnce(events: seq<Event>, id: string)
    requires UniqueEvents(events)
    ensures multiset(Map(EventId, events))[id] == if id in IdsOf(events) then 1 else 0
    decreases |events|
  {
    if |events| > 0 {
      var n := |events| - 1;
      var front, e := events[..n], events[n];
      assert events == front + [e];
      UniqueIdsOnce(front, id);
      MapSplit(EventId, front, [e]);
      assert Map(EventId, [e]) == [e.id];
      assert e.id !in IdsOf(front);
      assert IdsOf(events) == IdsOf(front) + {e.id};
    }
  }

  function CountId(ids: seq<string>, id: string): nat {
    multiset(ids)[id]
  }

  // The plan partitions the events: each is listed once as a standalone, or wins some merge, or
  // loses exactly one; no loser wins, so no fold is chained; and no other event is named.
  lemma PlanPartitions(assess: Assess, policy: Policy, priority: seq<string>, events: seq<Event>, plan: Plan, id: string)
    requires UniqueEvents(events) && plan == PlanOf(assess, policy, priority, events)
    ensures CountId(plan.standalone, id) + CountId(Map(LoserId, plan.merges), id) + (if WinsIn(plan.merges, id) then 1 else 0)
         == if id in IdsOf(events) then 1 else 0
  {
    var groups := PlanGroups(assess, policy, priority, events);
    GroupsPartition(assess, groups);
    WinnersFold(assess, groups, id);
    MapIgnoresOrder(EventId, Flat(groups), events);
    UniqueIdsOnce(events, id);
  }

  // ---------------------------------------------------------------- only confirmed, disjoint pairs

  // Two of the events, of disjoint providers, behind a merge.
  ghost predicate FoldsPair(assess: Assess, policy: Policy, m: Merge, winner: Event, loser: Event) {
    && m.winner == winner.id && m.loser == loser.id && m.moved == loser.sources
    && CrossProvider(loser, winner) && m.score >= policy.confirmThreshold
    && m.score == assess(RefOf(loser), RefOf(winner)).score
  }

  lemma {:induction false} MergeAt(assess: Assess, groups: Groups, i: nat) returns (g: nat, k: nat)
    requires i < |AllMerges(assess, groups)|
    ensures g < |groups| && 1 <= k < |groups[g]| && AllMerges(assess, groups)[i] == MergeOf(assess, groups[g][0], groups[g][k])
  {
    var n := |groups| - 1;
    var front := AllMerges(assess, groups[..n]);
    if i < |front| {
      g, k := MergeAt(assess, groups[..n], i);
    } else {
      g, k := n, i - |front| + 1;
    }
  }

  // Every planned fold pairs two of the events whose providers are disjoint and whose score reaches
  // the confirm threshold, and the winner comes first in winner order.
  lemma MergesAreConfirmed(assess: Assess, policy: Policy, priority: seq<string>, events: seq<Event>, i: nat)
    returns (winner: Event, loser: Event)
    requires UniqueEvents(events) && i < |PlanOf(assess, policy, priority, events).merges|
    ensures winner in events && loser in events && Before(winner, loser, priority)
    ensures FoldsPair(assess, policy, PlanOf(assess, policy, priority, events).merges[i], winner, loser)
  {
    var groups := PlanGroups(assess, policy, priority, events);
    var g, k := MergeAt(assess, groups, i);
    winner, loser := groups[g][0], groups[g][k];
    MemberInFlat(groups, g, 0);
    MemberInFlat(groups, g, k);
    assert winner in multiset(events) && loser in multiset(events);
    assert Judge(assess, policy)(loser, winner).kind == Confirmed;
    assert Order(priority)(winner, loser);
  }

  // ---------------------------------------------------------------- applying a plan

  // One fold: the loser's bindings go after the winner's own, and the loser is deleted.
  function Fold(m: Merge): Event -> seq<Event> {
    (e: Event) =>
      if e.id == m.loser then [] else if e.id == m.winner then [e.(sources := e.sources + m.moved)] else [e]
  }

  function ApplyMerge(events: seq<Event>, m: Merge): seq<Event> {
    FlatMap(Fold(m), events)
  }

  function ApplyAll(events: seq<Event>, merges: seq<Merge>): seq<Event> {
    if |merges| == 0 then events
    else
      var n := |merges| - 1;
      ApplyMerge(ApplyAll(events, merges[..n]), merges[n])
  }

  // What an event gains from a list of folds.
  function Gained(merges: seq<Merge>, id: string): seq<Source> {
    if |merges| == 0 then []
    else
      var n := |merges| - 1;
      Gained(merges[..n], id) + if merges[n].winner == id then merges[n].moved else []
  }

  ghost predicate Loses(merges: seq<Merge>, id: string) {
    exists i :: 0 <= i < |merges| && merges[i].loser == id
  }

  lemma {:induction false} InFlatMap<T(!new), U(!new)>(f: T -> seq<U>, xs: seq<T>, y: U)
    ensures y in FlatMap(f, xs) <==> exists x :: x in xs && y in f(x)
  {
    if |xs| > 0 {
      var n := |xs| - 1;
      InFlatMap(f, xs[..n], y);
      assert xs == xs[..n] + [xs[n]];
    }
  }

  function After(merges: seq<Merge>, x: Event): Event {
    x.(sources := x.sources + Gained(merges, x.id))
  }

  // y is what x becomes: not a loser, and with all it gained.
  ghost predicate Becomes(merges: seq<Merge>, x: Event, y: Event) {
    !Loses(merges, x.id) && y == After(merges, x)
  }

  lemma LosesStep(merges: seq<Merge>, front: seq<Merge>, m: Merge, id: string)
    requires merges == front + [m]
    ensures Loses(merges, id) <==> Loses(front, id) || m.loser == id
  {
    assert merges[|front|] == m && forall i :: 0 <= i < |front| ==> front[i] == merges[i];
  }

  lemma BecomesStep(merges: seq<Merge>, front: seq<Merge>, m: Merge, x: Event, z: Event)
    requires merges == front + [m]
    ensures Becomes(merges, x, z) <==> !Loses(front, x.id) && z in Fold(m)(After(front, x))
  {
    LosesStep(merges, front, m, x.id);
    assert merges[..|front|] == front;
    var y := After(front, x);
    assert y.sources + m.moved == x.sources + (Gained(front, x.id) + m.moved);
    assert Gained(front, x.id) + [] == Gained(front, x.id);
  }

  // After all the folds exactly the non-losers are left, each with all it gained.
  lemma {:induction false} ApplyAllHolds(events: seq<Event>, merges: seq<Merge>, z: Event)
    ensures z in ApplyAll(events, merges) <==> exists x :: x in events && Becomes(merges, x, z)
    decreases |merges|
  {
    if |merges| == 0 {
      forall x ensures Becomes(merges, x, z) <==> z == x {
        assert x.sources + [] == x.sources;
      }
      assert z in events ==> Becomes(merges, z, z);
    } else {
      var n := |merges| - 1;
      var front, m := merges[..n], merges[n];
      assert merges == front + [m];
      InFlatMap(Fold(m), ApplyAll(events, front), z);
      if y :| y in ApplyAll(events, front) && z in Fold(m)(y) {
        ApplyAllHolds(events, front, y);
        var x :| x in events && Becomes(front, x, y);
        BecomesStep(merges, front, m, x, z);
      }
      if x :| x in events && Becomes(merges, x, z) {
        BecomesStep(merges, front, m, x, z);
        ApplyAllHolds(events, front, After(front, x));
        assert Becomes(front, x, After(front, x));
      }
    }
  }

  ghost predicate KeepsIds(f: Event -> seq<Event>) {
    forall e :: |f(e)| <= 1 && (|f(e)| == 1 ==> f(e)[0].id == e.id)
  }

  lemma {:induction false} FlatMapUnique(f: Event -> seq<Event>, xs: seq<Event>)
    requires KeepsIds(f) && UniqueEvents(xs)
    ensures UniqueEvents(FlatMap(f, xs))
  {
    if |xs| > 0 {
      var n := |xs| - 1;
      var front := FlatMap(f, xs[..n]);
      FlatMapUnique(f, xs[..n]);
      forall i | 0 <= i < |front| ensures front[i].id != xs[n].id {
        assert front[i] in front;
        InFlatMap(f, xs[..n], front[i]);
        var x :| x in xs[..n] && front[i] in f(x);
      }
    }
  }

  lemma {:induction false} ApplyAllUnique(events: seq<Event>, merges: seq<Merge>)
    requires UniqueEvents(events)
    ensures UniqueEvents(ApplyAll(events, merges))
    decreases |merges|
  {
    if |merges| > 0 {
      var n := |merges| - 1;
      ApplyAllUnique(events, merges[..n]);
      FlatMapUnique(Fold(merges[n]), ApplyAll(events, merges[..n]));
    }
  }

  // ---------------------------------------------------------------- nothing left to fold

  // No event is confirmed against one that comes before it.
  ghost predicate NoneConfirmed(judge: Verdicts, less: (Event, Event) -> bool, xs: seq<Event>) {
    forall a, b :: a in xs && b in xs && less(b, a) ==> judge(a, b).kind != Confirmed
  }

  function Singles(xs: seq<Event>): (r: Groups)
    ensures |r| == |xs| && forall i :: 0 <= i < |xs| ==> r[i] == [xs[i]]
  {
    seq(|xs|, i requires 0 <= i < |xs| => [xs[i]])
  }

  lemma NoBest(judge: Verdicts, roots: seq<Event>, e: Event, kind: Kind)
    requires forall i :: 0 <= i < |roots| ==> judge(e, roots[i]).kind != kind
    ensures Best(judge, roots, e, kind) == None
  {
  }

  lemma SeatedAlone(judge: Verdicts, front: seq<Event>, s: Seating, e: Event)
    requires s.groups == Singles(front) && s.seated == IdsOf(front) && e.id !in IdsOf(front)
    requires forall i :: 0 <= i < |front| ==> judge(e, front[i]).kind != Confirmed
    ensures Visit(judge, s, e).groups == Singles(front + [e]) && Visit(judge, s, e).seated == IdsOf(front + [e])
  {
    assert Roots(s.groups) == front;
    NoBest(judge, front, e, Confirmed);
    assert IdsOf(front + [e]) == IdsOf(front) + {e.id};
    assert Singles(front + [e]) == Singles(front) + [[e]];
  }

  lemma {:induction false} AllAlone(judge: Verdicts, less: (Event, Event) -> bool, ordered: seq<Event>)
    requires UniqueEvents(ordered) && Ascending(less, ordered) && NoneConfirmed(judge, less, ordered)
    ensures SeatAll(judge, ordered).groups == Singles(ordered) && SeatAll(judge, ordered).seated == IdsOf(ordered)
  {
    if |ordered| == 0 {
      assert IdsOf(ordered) == {};
    } else {
      var n := |ordered| - 1;
      var front, e := ordered[..n], ordered[n];
      assert ordered == front + [e];
      LastComesAfter(less, ordered, front, e);
      AllAlone(judge, less, front);
      forall i | 0 <= i < n ensures judge(e, front[i]).kind != Confirmed {
        assert front[i] in front && front[i] in ordered && e in ordered;
      }
      SeatedAlone(judge, front, SeatAll(judge, front), e);
    }
  }

  lemma {:induction false} SinglesMerge(assess: Assess, xs: seq<Event>)
    ensures AllMerges(assess, Singles(xs)) == []
  {
    if |xs| > 0 {
      var n := |xs| - 1;
      SinglesMerge(assess, xs[..n]);
      assert Singles(xs)[..n] == Singles(xs[..n]);
    }
  }

  lemma NoMerges(assess: Assess, policy: Policy, priority: seq<string>, events: seq<Event>)
    requires UniqueEvents(events) && NoneConfirmed(Judge(assess, policy), Order(priority), events)
    ensures PlanOf(assess, policy, priority, events).merges == []
  {
    var less := Order(priority);
    var sorted := Sort(less, events);
    BeforeIsOrder(priority);
    UniqueEventsComparable(events, priority);
    SortKeepsUnique(less, events);
    SortHolds(less, events);
    forall a | a in sorted ensures a in events {
      assert a in multiset(sorted);
    }
    AllAlone(Judge(assess, policy), less, sorted);
    SinglesMerge(assess, sorted);
  }

  // ---------------------------------------------------------------- planning is idempotent

  lemma {:induction false} LeastRankMeans(sources: seq<Source>, priority: seq<string>) returns (i: nat)
    requires |sources| > 0
    ensures i < |sources| && LeastRank(sources, priority) == IndexIn(priority, sources[i].provider)
    ensures forall s :: s in sources ==> LeastRank(sources, priority) <= IndexIn(priority, s.provider)
  {
    var n := |sources| - 1;
    i := n;
    if n > 0 {
      var j := LeastRankMeans(sources[..n], priority);
      if LeastRank(sources[..n], priority) < IndexIn(priority, sources[n].provider) {
        i := j;
      }
      assert sources == sources[..n] + [sources[n]];
    }
  }

  // Bindings that rank no better leave the least rank as it was.
  lemma RankStays(own: seq<Source>, gained: seq<Source>, priority: seq<string>)
    requires |own| > 0
    requires forall s :: s in gained ==> LeastRank(own, priority) <= IndexIn(priority, s.provider)
    ensures LeastRank(own + gained, priority) == LeastRank(own, priority)
  {
    var i := LeastRankMeans(own, priority);
    var j := LeastRankMeans(own + gained, priority);
    assert own[i] in own + gained && (own + gained)[j] in own + gained;
    assert (own + gained)[j] in own || (own + gained)[j] in gained;
  }

  lemma {:induction false} GainedFrom(merges: seq<Merge>, id: string, s: Source) returns (i: nat)
    requires s in Gained(merges, id)
    ensures i < |merges| && merges[i].winner == id && s in merges[i].moved
  {
    var n := |merges| - 1;
    if s in Gained(merges[..n], id) {
      i := GainedFrom(merges[..n], id, s);
    } else {
      i := n;
    }
  }

  // The groups behind a plan for these events.
  ghost predicate Behind(judge: Verdicts, less: (Event, Event) -> bool, groups: Groups, events: seq<Event>) {
    && WellJudged(judge, groups) && WellOrdered(less, groups)
    && multiset(Flat(groups)) == multiset(events) && UniqueEvents(events)
  }

  lemma SameId(groups: Groups, events: seq<Event>, g: nat, k: nat, h: nat, l: nat)
    requires multiset(Flat(groups)) == multiset(events) && UniqueEvents(events)
    requires g < |groups| && k < |groups[g]| && h < |groups| && l < |groups[h]| && groups[g][k].id == groups[h][l].id
    ensures groups[g][k] == groups[h][l]
  {
    MemberInFlat(groups, g, k);
    MemberInFlat(groups, h, l);
    assert groups[g][k] in multiset(events) && groups[h][l] in multiset(events);
    assert groups[g][k] in events && groups[h][l] in events;
  }

  // Whatever a root gains ranks no better than the root.
  lemma GainedRanks(assess: Assess, judge: Verdicts, priority: seq<string>, groups: Groups, events: seq<Event>, g: nat, s: Source)
    requires Behind(judge, Order(priority), groups, events) && g < |groups|
    requires s in Gained(AllMerges(assess, groups), groups[g][0].id)
    ensures Rank(groups[g][0], priority) <= IndexIn(priority, s.provider)
  {
    var i := GainedFrom(AllMerges(assess, groups), groups[g][0].id, s);
    var h, k := MergeAt(assess, groups, i);
    SameId(groups, events, g, 0, h, 0);
    var loser := groups[h][k];
    assert Order(priority)(groups[h][0], loser);
    var _ := LeastRankMeans(loser.sources, priority);
  }

  // A root that gained bindings keeps its place in the order and is referred to as before.
  lemma RootStays(assess: Assess, judge: Verdicts, priority: seq<string>, groups: Groups, events: seq<Event>, g: nat, y: Event)
    requires Behind(judge, Order(priority), groups, events) && g < |groups|
    requires y == After(AllMerges(assess, groups), groups[g][0])
    ensures Rank(y, priority) == Rank(groups[g][0], priority) && RefOf(y) == RefOf(groups[g][0])
    ensures Providers(groups[g][0]) <= Providers(y)
  {
    var x, gained := groups[g][0], Gained(AllMerges(assess, groups), groups[g][0].id);
    forall s | s in gained ensures Rank(x, priority) <= IndexIn(priority, s.provider) {
      GainedRanks(assess, judge, priority, groups, events, g, s);
    }
    if |x.sources| == 0 {
      HasElement(gained);
      assert y == x;
    } else {
      RankStays(x.sources, gained, priority);
      assert y.sources[0] == x.sources[0];
    }
  }

  // An event of the plan that loses no fold is a root.
  lemma NonLoserIsRoot(assess: Assess, groups: Groups, events: seq<Event>, x: Event) returns (g: nat)
    requires multiset(Flat(groups)) == multiset(events) && x in events && !Loses(AllMerges(assess, groups), x.id)
    ensures g < |groups| && groups[g][0] == x
  {
    assert x in multiset(Flat(groups));
    var h, k := FlatMember(groups, x);
    if k > 0 {
      LoserListed(assess, groups, h, k);
    }
    g := h;
  }

  lemma {:induction false} FlatMember(groups: Groups, x: Event) returns (g: nat, k: nat)
    requires x in Flat(groups)
    ensures g < |groups| && k < |groups[g]| && groups[g][k] == x
  {
    var n := |groups| - 1;
    if x in Flat(groups[..n]) {
      g, k := FlatMember(groups[..n], x);
    } else {
      g := n;
      k :| 0 <= k < |groups[n]| && groups[n][k] == x;
    }
  }

  lemma {:induction false} LoserListed(assess: Assess, groups: Groups, g: nat, k: nat)
    requires g < |groups| && 1 <= k < |groups[g]|
    ensures Loses(AllMerges(assess, groups), groups[g][k].id)
  {
    var n := |groups| - 1;
    var front, all := AllMerges(assess, groups[..n]), AllMerges(assess, groups);
    if g < n {
      LoserListed(assess, groups[..n], g, k);
      var i :| 0 <= i < |front| && front[i].loser == groups[g][k].id;
      assert all[i].loser == groups[g][k].id;
    } else {
      assert all[|front| + (k - 1)].loser == groups[g][k].id;
    }
  }

  lemma Asymmetric<T(!new)>(less: (T, T) -> bool, a: T, b: T)
    requires StrictOrder(less) && less(a, b)
    ensures !less(b, a)
  {
    assert !less(a, a);
  }

  lemma RootsInOrder(priority: seq<string>, groups: Groups, h: nat, g: nat)
    requires WellOrdered(Order(priority), groups) && h < |groups| && g < |groups|
    requires Order(priority)(groups[h][0], groups[g][0])
    ensures h < g
  {
    BeforeIsOrder(priority);
    Asymmetric(Order(priority), groups[h][0], groups[g][0]);
  }

  // Fewer shared providers and the same references: the verdict cannot turn into a confirmation.
  lemma StaysUnconfirmed(assess: Assess, policy: Policy, x: Event, w: Event, a: Event, b: Event)
    requires RefOf(a) == RefOf(x) && RefOf(b) == RefOf(w) && Providers(x) <= Providers(a) && Providers(w) <= Providers(b)
    requires Judge(assess, policy)(x, w).kind != Confirmed
    ensures Judge(assess, policy)(a, b).kind != Confirmed
  {
    assert CrossProvider(a, b) ==> CrossProvider(x, w);
  }

  // What is left after the folds comes from a root, which keeps its place and its reference.
  lemma LeftIsRoot(assess: Assess, judge: Verdicts, priority: seq<string>, groups: Groups, events: seq<Event>, a: Event)
    returns (g: nat)
    requires Behind(judge, Order(priority), groups, events) && a in ApplyAll(events, AllMerges(assess, groups))
    ensures g < |groups| && RefOf(a) == RefOf(groups[g][0]) && Providers(groups[g][0]) <= Providers(a)
    ensures Rank(a, priority) == Rank(groups[g][0], priority)
    ensures a.id == groups[g][0].id && Created(a) == Created(groups[g][0])
  {
    var merges := AllMerges(assess, groups);
    ApplyAllHolds(events, merges, a);
    var x :| x in events && Becomes(merges, x, a);
    g := NonLoserIsRoot(assess, groups, events, x);
    RootStays(assess, judge, priority, groups, events, g, a);
  }

  lemma StillNotConfirmed(assess: Assess, policy: Policy, priority: seq<string>, groups: Groups, events: seq<Event>,
      a: Event, b: Event)
    requires Behind(Judge(assess, policy), Order(priority), groups, events)
    requires a in ApplyAll(events, AllMerges(assess, groups)) && b in ApplyAll(events, AllMerges(assess, groups))
    requires Before(b, a, priority)
    ensures Judge(assess, policy)(a, b).kind != Confirmed
  {
    var judge := Judge(assess, policy);
    var g := LeftIsRoot(assess, judge, priority, groups, events, a);
    var h := LeftIsRoot(assess, judge, priority, groups, events, b);
    var x, w := groups[g][0], groups[h][0];
    assert Before(w, x, priority);
    RootsInOrder(priority, groups, h, g);
    StaysUnconfirmed(assess, policy, x, w, a, b);
  }

  // Planning is idempotent through application: once every planned fold has moved its bindings and
  // deleted its loser, planning again finds nothing to fold.
  lemma PlanningIsIdempotent(assess: Assess, policy: Policy, priority: seq<string>, events: seq<Event>)
    requires UniqueEvents(events)
    ensures PlanOf(assess, policy, priority, ApplyAll(events, PlanOf(assess, policy, priority, events).merges)).merges == []
  {
    var groups := PlanGroups(assess, policy, priority, events);
    var left := ApplyAll(events, AllMerges(assess, groups));
    ApplyAllUnique(events, AllMerges(assess, groups));
    forall a, b | a in left && b in left && Order(priority)(b, a) ensures Judge(assess, policy)(a, b).kind != Confirmed {
      StillNotConfirmed(assess, policy, priority, groups, events, a, b);
    }
    NoMerges(assess, policy, priority, left);
  }
}
