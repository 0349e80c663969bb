// What a plan means for the events themselves: which event survives a fold, which survivor it folds into, and
// which pairs are only flagged.

module EventPlanMeans {
  import opened Lines
  import opened Sequences
  import opened Sorting
  import opened Matching
  import opened EventPlan
  import opened EventPlanTheorems

  // ---------------------------------------------------------------- which event wins

  ghost predicate BoundTo(e: Event, provider: string) {
    exists s :: s in e.sources && s.provider == provider
  }

  ghost predicate BoundWithin(e: Event, priority: seq<string>, i: nat) {
    exists h :: 0 <= h <= i < |priority| && BoundTo(e, priority[h])
  }

  // Wherever b is bound to a provider of the list, a is bound to it or to an earlier one; and a is bound at all if b is.
  ghost predicate PlacedNoWorse(a: Event, b: Event, priority: seq<string>) {
    && (a.sources == [] ==> b.sources == [])
    && forall i :: 0 <= i < |priority| && BoundTo(b, priority[i]) ==> BoundWithin(a, priority, i)
  }

  // Created earlier, an unknown time being the earliest of all, or at the same time with the smaller id.
  ghost predicate Older(a: Event, b: Event) {
    var created, other := match a.createdAt { case Some(t) => t case None => "" }, match b.createdAt { case Some(t) => t case None => "" };
    ComesBefore(created, other) || (created == other && ComesBefore(a.id, b.id))
  }

  // The winner order: the better placed first, and the older of two that are placed alike.
  ghost predicate Precedes(a: Event, b: Event, priority: seq<string>) {
    PlacedNoWorse(a, b, priority) && (PlacedNoWorse(b, a, priority) ==> Older(a, b))
  }

  lemma RankWithin(e: Event, priority: seq<string>, i: nat)
    requires i < |priority|
    ensures Rank(e, priority) <= i <==> BoundWithin(e, priority, i)
  {
    if |e.sources| > 0 {
      var k := LeastRankMeans(e.sources, priority);
      var best := Rank(e, priority);
      if best <= i {
        assert BoundTo(e, priority[best]);
      }
      forall h | 0 <= h <= i && BoundTo(e, priority[h]) ensures best <= h {
        var s :| s in e.sources && s.provider == priority[h];
        assert IndexIn(priority, s.provider) <= h;
      }
    }
  }

  lemma RankIsBound(e: Event, priority: seq<string>)
    requires Rank(e, priority) < |priority|
    ensures BoundTo(e, priority[Rank(e, priority)])
  {
    var k := LeastRankMeans(e.sources, priority);
    assert e.sources[k].provider == priority[Rank(e, priority)];
  }

  lemma PlacedMeans(a: Event, b: Event, priority: seq<string>)
    ensures PlacedNoWorse(a, b, priority) <==> Rank(a, priority) <= Rank(b, priority)
  {
    if Rank(a, priority) <= Rank(b, priority) {
      forall i | 0 <= i < |priority| && BoundTo(b, priority[i]) ensures BoundWithin(a, priority, i) {
        assert BoundWithin(b, priority, i);
        RankWithin(b, priority, i);
        RankWithin(a, priority, i);
      }
    } else if Rank(b, priority) < |priority| {
      var i := Rank(b, priority);
      RankIsBound(b, priority);
      RankWithin(a, priority, i);
    }
  }

  // The planner's order is the winner order.
  lemma PrecedesMeans(a: Event, b: Event, priority: seq<string>)
    ensures Before(a, b, priority) <==> Precedes(a, b, priority)
  {
    PlacedMeans(a, b, priority);
    PlacedMeans(b, a, priority);
    StrLessMeans(Created(a), Created(b));
    StrLessMeans(a.id, b.id);
    StrLessIrreflexive(Created(a));
  }

  // ---------------------------------------------------------------- what a pair is judged on

  ghost predicate NoSharedProvider(a: Event, b: Event) {
    forall s, z :: s in a.sources && z in b.sources ==> s.provider != z.provider
  }

  // An event goes by its first binding, or when it has none by its id and what stands before the first colon of it.
  ghost predicate Describes(r: Ref, e: Event) {
    && r.homeTeam == e.homeTeam && r.awayTeam == e.awayTeam && r.competition == Some(e.competition) && r.startTime == e.startTime
    && if |e.sources| > 0 then r.provider == e.sources[0].provider && r.sourceEventId == e.sources[0].sourceEventId
       else r.sourceEventId == e.id && ':' !in r.provider && (e.id == r.provider || r.provider + ":" <= e.id)
  }

  lemma RefDescribes(e: Event)
    ensures Describes(RefOf(e), e)
  {
    var colon := IndexOf(e.id, ':');
    assert forall k :: 0 <= k < colon ==> e.id[k] != ':';
    assert colon < |e.id| ==> e.id[..colon] + ":" == e.id[..colon + 1];
    assert colon == |e.id| ==> e.id[..colon] == e.id;
  }

  lemma DescribedOnce(r: Ref, e: Event)
    requires Describes(r, e)
    ensures r == RefOf(e)
  {
    if |e.sources| == 0 {
      var n := |r.provider|;
      assert r.provider == e.id[..n];
      assert forall k :: 0 <= k < n ==> e.id[k] == r.provider[k];
      assert e.id != r.provider ==> e.id[n] == (r.provider + ":")[n];
    }
  }

  // How an event compares with one that comes before it.
  ghost predicate Assessed(assess: Assess, e: Event, w: Event, a: Assessment) {
    exists l, r :: Describes(l, e) && Describes(r, w) && a == assess(l, r)
  }

  lemma AssessedOnce(assess: Assess, e: Event, w: Event, a: Assessment)
    ensures Assessed(assess, e, w, a) <==> a == assess(RefOf(e), RefOf(w))
  {
    RefDescribes(e);
    RefDescribes(w);
    forall l, r | Describes(l, e) && Describes(r, w) ensures assess(l, r) == assess(RefOf(e), RefOf(w)) {
      DescribedOnce(l, e);
      DescribedOnce(r, w);
    }
  }

  // Two events without a shared provider whose score reaches the threshold.
  ghost predicate Matches(assess: Assess, policy: Policy, e: Event, w: Event, score: real) {
    && NoSharedProvider(e, w) && score >= policy.confirmThreshold
    && exists a :: Assessed(assess, e, w, a) && a.score == score
  }

  // Two events without a shared provider whose teams agree and whose score falls short.
  ghost predicate Resembles(assess: Assess, policy: Policy, e: Event, w: Event, score: real) {
    && NoSharedProvider(e, w) && score < policy.confirmThreshold
    && exists a :: Assessed(assess, e, w, a) && a.score == score && (a.signals.teams || a.signals.reverseTeams)
  }

  lemma SharedMeans(a: Event, b: Event)
    ensures NoSharedProvider(a, b) <==> CrossProvider(a, b)
  {
    forall s, z | s in a.sources && z in b.sources && s.provider == z.provider ensures !CrossProvider(a, b) {
      assert s.provider in Providers(a) && z.provider in Providers(b);
    }
  }

  lemma JudgeMeans(assess: Assess, policy: Policy, e: Event, w: Event, score: real)
    ensures Matches(assess, policy, e, w, score) <==> Judge(assess, policy)(e, w) == Judgement(Confirmed, score)
    ensures Resembles(assess, policy, e, w, score) <==> Judge(assess, policy)(e, w) == Judgement(Unsure, score)
  {
    SharedMeans(e, w);
    var own := assess(RefOf(e), RefOf(w));
    AssessedOnce(assess, e, w, own);
    forall a | Assessed(assess, e, w, a) ensures a == own {
      AssessedOnce(assess, e, w, a);
    }
  }

  // ---------------------------------------------------------------- the best of the roots

  lemma {:induction false} BestIsFirst(judge: Verdicts, roots: seq<Event>, e: Event, kind: Kind, i: nat)
    requires Best(judge, roots, e, kind).Some? && i < Best(judge, roots, e, kind).value && judge(e, roots[i]).kind == kind
    ensures judge(e, roots[i]).score < judge(e, roots[Best(judge, roots, e, kind).value]).score
  {
    var n := |roots| - 1;
    if Best(judge, roots, e, kind).value < n {
      BestIsFirst(judge, roots[..n], e, kind, i);
    }
  }

  // No root that a member came after suits it better than its own, and no earlier one as well.
  ghost predicate BestSeated(judge: Verdicts, less: (Event, Event) -> bool, groups: Groups) {
    forall g, k, h :: 0 <= g < |groups| && 1 <= k < |groups[g]| && 0 <= h < |groups| && h != g
      && less(groups[h][0], groups[g][k]) && judge(groups[g][k], groups[h][0]).kind == Confirmed
      ==> NotBetter(judge, groups[g][k], groups[h][0], groups[g][0], h < g)
  }

  ghost predicate NotBetter(judge: Verdicts, e: Event, other: Event, own: Event, earlier: bool) {
    if earlier then judge(e, other).score < judge(e, own).score else judge(e, other).score <= judge(e, own).score
  }

  lemma SeatBest(judge: Verdicts, less: (Event, Event) -> bool, groups: Groups, e: Event, xs: seq<Event>)
    requires BestSeated(judge, less, groups) && multiset(Flat(groups)) == multiset(xs)
    requires forall x :: x in xs ==> !less(e, x)
    ensures BestSeated(judge, less, Seat(judge, groups, e))
  {
    var roots, after := Roots(groups), Seat(judge, groups, e);
    var best := Best(judge, roots, e, Confirmed);
    forall g, k, h | 0 <= g < |after| && 1 <= k < |after[g]| && 0 <= h < |after| && h != g
      && less(after[h][0], after[g][k]) && judge(after[g][k], after[h][0]).kind == Confirmed
      ensures NotBetter(judge, after[g][k], after[h][0], after[g][0], h < g)
    {
      if g < |groups| && k < |groups[g]| {
        MemberAmong(groups, xs, g, k);
        assert h < |groups|;
        assert after[g][k] == groups[g][k] && after[h][0] == groups[h][0];
      } else {
        assert best == Some(g) && after[g][k] == e && after[h][0] == roots[h] && after[g][0] == roots[g];
        if h < g {
          BestIsFirst(judge, roots, e, Confirmed, h);
        }
      }
    }
  }

  lemma MemberAmong(groups: Groups, xs: seq<Event>, g: nat, k: nat)
    requires g < |groups| && k < |groups[g]| && multiset(Flat(groups)) == multiset(xs)
    ensures groups[g][k] in xs
  {
    MemberInFlat(groups, g, k);
    assert groups[g][k] in multiset(xs);
  }

  // Each root but the first is flagged against the earlier root it resembles most, if there is one.
  function Flags(judge: Verdicts, roots: seq<Event>): seq<Uncertain> {
    if |roots| == 0 then []
    else
      var n := |roots| - 1;
      Flags(judge, roots[..n])
      + match Best(judge, roots[..n], roots[n], Unsure)
        case None => []
        case Some(i) => [Uncertain(roots[n].id, roots[i].id, judge(roots[n], roots[i]).score)]
  }

  lemma SeatFlags(judge: Verdicts, groups: Groups, e: Event, flags: seq<Uncertain>)
    requires flags == Flags(judge, Roots(groups))
    ensures flags + Near(judge, groups, e) == Flags(judge, Roots(Seat(judge, groups, e)))
  {
    var roots, after := Roots(groups), Roots(Seat(judge, groups, e));
    if Best(judge, roots, e, Confirmed).Some? {
      assert after == roots;
      assert flags + [] == flags;
    } else {
      assert after == roots + [e] && after[..|roots|] == roots;
    }
  }

  // What seating unique events in winner order leaves behind.
  lemma {:induction false} SeatingBest(judge: Verdicts, less: (Event, Event) -> bool, ordered: seq<Event>)
    requires UniqueEvents(ordered) && Ascending(less, ordered) && StrictOrder(less)
    ensures BestSeated(judge, less, SeatAll(judge, ordered).groups)
    ensures SeatAll(judge, ordered).uncertain == Flags(judge, Roots(SeatAll(judge, ordered).groups))
  {
    if |ordered| > 0 {
      var n := |ordered| - 1;
      var front, e := ordered[..n], ordered[n];
      var s := SeatAll(judge, front);
      assert ordered == front + [e];
      LastComesAfter(less, ordered, front, e);
      SeatingBest(judge, less, front);
      SeatingKeeps(judge, less, front);
      forall x | x in front ensures !less(e, x) {
        Asymmetric(less, x, e);
      }
      SeatBest(judge, less, s.groups, e, front);
      SeatFlags(judge, s.groups, e, s.uncertain);
    }
  }

  // ---------------------------------------------------------------- the plan

  // The groups behind a plan, and all that is known of them.
  ghost predicate Explains(assess: Assess, policy: Policy, priority: seq<string>, events: seq<Event>, groups: Groups, plan: Plan) {
    var judge := Judge(assess, policy);
    && Behind(judge, Order(priority), groups, events) && BestSeated(judge, Order(priority), groups)
    && plan.merges == AllMerges(assess, groups) && plan.uncertain == Flags(judge, Roots(groups))
  }

  lemma PlanExplained(assess: Assess, policy: Policy, priority: seq<string>, events: seq<Event>) returns (groups: Groups)
    requires UniqueEvents(events)
    ensures Explains(assess, policy, priority, events, groups, PlanOf(assess, policy, priority, events))
  {
    var less, judge := Order(priority), Judge(assess, policy);
    BeforeIsOrder(priority);
    UniqueEventsComparable(events, priority);
    SortKeepsUnique(less, events);
    SortHolds(less, events);
    SeatingKeeps(judge, less, Sort(less, events));
    SeatingBest(judge, less, Sort(less, events));
    groups := SeatAll(judge, Sort(less, events)).groups;
  }

  ghost predicate Survivor(plan: Plan, events: seq<Event>, e: Event) {
    e in events && !Loses(plan.merges, e.id)
  }

  lemma SurvivorIsRoot(assess: Assess, policy: Policy, priority: seq<string>, events: seq<Event>, groups: Groups, plan: Plan, e: Event)
    returns (g: nat)
    requires Explains(assess, policy, priority, events, groups, plan) && Survivor(plan, events, e)
    ensures g < |groups| && groups[g][0] == e
  {
    g := NonLoserIsRoot(assess, groups, events, e);
  }

  lemma RootSurvives(assess: Assess, policy: Policy, priority: seq<string>, events: seq<Event>, groups: Groups, plan: Plan, g: nat)
    requires Explains(assess, policy, priority, events, groups, plan) && g < |groups|
    ensures Survivor(plan, events, groups[g][0])
  {
    MemberAmong(groups, events, g, 0);
    BeforeIsOrder(priority);
    forall i | 0 <= i < |plan.merges| ensures plan.merges[i].loser != groups[g][0].id {
      var h, k := MergeAt(assess, groups, i);
      MemberIsNoRoot(Judge(assess, policy), Order(priority), groups, events, h, k, g);
    }
  }

  lemma MemberIsNoRoot(judge: Verdicts, less: (Event, Event) -> bool, groups: Groups, events: seq<Event>, h: nat, k: nat, g: nat)
    requires Behind(judge, less, groups, events) && StrictOrder(less)
    requires h < |groups| && 1 <= k < |groups[h]| && g < |groups|
    ensures groups[h][k].id != groups[g][0].id
  {
    assert less(groups[h][0], groups[h][k]);
    assert judge(groups[h][k], groups[h][0]).kind == Confirmed;
    if h > g {
      Asymmetric(less, groups[g][0], groups[h][0]);
    }
    if groups[h][k].id == groups[g][0].id {
      SameId(groups, events, h, k, g, 0);
    }
  }

  lemma RootsPrecede(priority: seq<string>, groups: Groups, h: nat, g: nat)
    requires WellOrdered(Order(priority), groups) && h < g < |groups|
    ensures Precedes(groups[h][0], groups[g][0], priority)
  {
    assert Order(priority)(groups[h][0], groups[g][0]);
    PrecedesMeans(groups[h][0], groups[g][0], priority);
  }

  // What a planned fold is: the loser goes, with its bindings, into a survivor that precedes it and that it matches,
  // and no other survivor preceding it matches it better, nor one that comes before the winner as well.
  ghost predicate FoldsWell(assess: Assess, policy: Policy, priority: seq<string>, events: seq<Event>, plan: Plan, m: Merge,
      winner: Event, loser: Event)
  {
    && winner.id == m.winner && loser.id == m.loser && loser in events && Survivor(plan, events, winner)
    && Precedes(winner, loser, priority) && m.moved == loser.sources
    && Matches(assess, policy, loser, winner, m.score) && Assessed(assess, loser, winner, Assessment(m.score, m.signals))
    && forall r, score ::
         (Survivor(plan, events, r) && r != winner && Precedes(r, loser, priority) && Matches(assess, policy, loser, r, score))
         ==> score < m.score || (score == m.score && Precedes(winner, r, priority))
  }

  lemma FoldsMean(assess: Assess, policy: Policy, priority: seq<string>, events: seq<Event>, i: nat) returns (winner: Event, loser: Event)
    requires UniqueEvents(events) && i < |PlanOf(assess, policy, priority, events).merges|
    ensures var plan := PlanOf(assess, policy, priority, events);
            FoldsWell(assess, policy, priority, events, plan, plan.merges[i], winner, loser)
  {
    var plan := PlanOf(assess, policy, priority, events);
    var groups := PlanExplained(assess, policy, priority, events);
    var g, k := MergeAt(assess, groups, i);
    winner, loser := groups[g][0], groups[g][k];
    MemberAmong(groups, events, g, k);
    RootSurvives(assess, policy, priority, events, groups, plan, g);
    PrecedesMeans(winner, loser, priority);
    FoldMatches(assess, policy, groups, g, k, plan.merges[i]);
    forall r, score | Survivor(plan, events, r) && r != winner && Precedes(r, loser, priority)
      && Matches(assess, policy, loser, r, score)
      ensures score < plan.merges[i].score || (score == plan.merges[i].score && Precedes(winner, r, priority))
    {
      OthersMatchLess(assess, policy, priority, events, groups, plan, g, k, r, score, plan.merges[i].score);
    }
  }

  lemma FoldMatches(assess: Assess, policy: Policy, groups: Groups, g: nat, k: nat, m: Merge)
    requires WellJudged(Judge(assess, policy), groups) && g < |groups| && 1 <= k < |groups[g]|
    requires m == MergeOf(assess, groups[g][0], groups[g][k])
    ensures Matches(assess, policy, groups[g][k], groups[g][0], m.score)
    ensures Judge(assess, policy)(groups[g][k], groups[g][0]) == Judgement(Confirmed, m.score)
    ensures Assessed(assess, groups[g][k], groups[g][0], Assessment(m.score, m.signals))
  {
    var judged := Judge(assess, policy)(groups[g][k], groups[g][0]);
    assert judged.kind == Confirmed;
    JudgeMeans(assess, policy, groups[g][k], groups[g][0], m.score);
    AssessedOnce(assess, groups[g][k], groups[g][0], Assessment(m.score, m.signals));
  }

  lemma OthersMatchLess(assess: Assess, policy: Policy, priority: seq<string>, events: seq<Event>, groups: Groups, plan: Plan,
      g: nat, k: nat, r: Event, score: real, own: real)
    requires Explains(assess, policy, priority, events, groups, plan) && g < |groups| && 1 <= k < |groups[g]|
    requires Judge(assess, policy)(groups[g][k], groups[g][0]) == Judgement(Confirmed, own)
    requires Survivor(plan, events, r) && r != groups[g][0] && Precedes(r, groups[g][k], priority)
    requires Matches(assess, policy, groups[g][k], r, score)
    ensures score < own || (score == own && Precedes(groups[g][0], r, priority))
  {
    var judge := Judge(assess, policy);
    var h := SurvivorIsRoot(assess, policy, priority, events, groups, plan, r);
    PrecedesMeans(r, groups[g][k], priority);
    JudgeMeans(assess, policy, groups[g][k], r, score);
    assert Order(priority)(groups[h][0], groups[g][k]);
    assert NotBetter(judge, groups[g][k], groups[h][0], groups[g][0], h < g);
    if g < h {
      RootsPrecede(priority, groups, g, h);
    }
  }

  // No two survivors match, the one that comes after being compared with the one before.
  lemma SurvivorsDoNotMatch(assess: Assess, policy: Policy, priority: seq<string>, events: seq<Event>, e: Event, w: Event, score: real)
    requires UniqueEvents(events)
    requires Survivor(PlanOf(assess, policy, priority, events), events, e)
    requires Survivor(PlanOf(assess, policy, priority, events), events, w) && Precedes(w, e, priority)
    ensures !Matches(assess, policy, e, w, score)
  {
    var plan := PlanOf(assess, policy, priority, events);
    var groups := PlanExplained(assess, policy, priority, events);
    var g := SurvivorIsRoot(assess, policy, priority, events, groups, plan, e);
    var h := SurvivorIsRoot(assess, policy, priority, events, groups, plan, w);
    PrecedesMeans(w, e, priority);
    RootsInOrder(priority, groups, h, g);
    JudgeMeans(assess, policy, e, w, score);
  }

  // ---------------------------------------------------------------- what is only flagged

  // A survivor is flagged against the earlier survivor that it resembles most.
  ghost predicate FlagsWell(assess: Assess, policy: Policy, priority: seq<string>, events: seq<Event>, plan: Plan, u: Uncertain,
      e: Event, w: Event)
  {
    && u.event == e.id && u.against == w.id && Survivor(plan, events, e) && Survivor(plan, events, w)
    && Precedes(w, e, priority) && Resembles(assess, policy, e, w, u.score)
    && forall r, score ::
         (Survivor(plan, events, r) && Precedes(r, e, priority) && Resembles(assess, policy, e, r, score)) ==> score <= u.score
  }

  lemma {:induction false} FlagAt(judge: Verdicts, roots: seq<Event>, i: nat) returns (g: nat, h: nat)
    requires i < |Flags(judge, roots)|
    ensures h < g < |roots| && Best(judge, roots[..g], roots[g], Unsure) == Some(h)
    ensures Flags(judge, roots)[i] == Uncertain(roots[g].id, roots[h].id, judge(roots[g], roots[h]).score)
  {
    var n := |roots| - 1;
    var front := Flags(judge, roots[..n]);
    if i < |front| {
      g, h := FlagAt(judge, roots[..n], i);
      assert roots[..n][..g] == roots[..g];
    } else {
      g, h := n, Best(judge, roots[..n], roots[n], Unsure).value;
    }
  }

  lemma FlagStays(judge: Verdicts, roots: seq<Event>, n: nat, i: nat)
    requires n + 1 == |roots| && i < |Flags(judge, roots[..n])|
    ensures i < |Flags(judge, roots)| && Flags(judge, roots)[i] == Flags(judge, roots[..n])[i]
  {
  }

  lemma {:induction false} FlagFor(judge: Verdicts, roots: seq<Event>, g: nat)
    requires g < |roots| && Best(judge, roots[..g], roots[g], Unsure).Some?
    ensures exists i :: 0 <= i < |Flags(judge, roots)| && Flags(judge, roots)[i].event == roots[g].id
  {
    var n := |roots| - 1;
    var front := Flags(judge, roots[..n]);
    if g < n {
      assert roots[..n][..g] == roots[..g];
      FlagFor(judge, roots[..n], g);
      assert roots[..n][g] == roots[g];
      var i :| 0 <= i < |front| && front[i].event == roots[..n][g].id;
      FlagStays(judge, roots, n, i);
    } else {
      assert Flags(judge, roots)[|front|].event == roots[g].id;
    }
  }

  lemma FlagsMean(assess: Assess, policy: Policy, priority: seq<string>, events: seq<Event>, i: nat) returns (e: Event, w: Event)
    requires UniqueEvents(events) && i < |PlanOf(assess, policy, priority, events).uncertain|
    ensures var plan := PlanOf(assess, policy, priority, events);
            FlagsWell(assess, policy, priority, events, plan, plan.uncertain[i], e, w)
  {
    var plan, judge := PlanOf(assess, policy, priority, events), Judge(assess, policy);
    var groups := PlanExplained(assess, policy, priority, events);
    var roots := Roots(groups);
    var g, h := FlagAt(judge, roots, i);
    e, w := roots[g], roots[h];
    RootSurvives(assess, policy, priority, events, groups, plan, g);
    RootSurvives(assess, policy, priority, events, groups, plan, h);
    RootsPrecede(priority, groups, h, g);
    assert roots[..g][h] == w;
    JudgeMeans(assess, policy, e, w, plan.uncertain[i].score);
    forall r, score | Survivor(plan, events, r) && Precedes(r, e, priority) && Resembles(assess, policy, e, r, score)
      ensures score <= plan.uncertain[i].score
    {
      var k := ResemblingRoot(assess, policy, priority, events, groups, plan, g, r, score);
      assert roots[..g][k] == r;
    }
  }

  lemma ResemblingRoot(assess: Assess, policy: Policy, priority: seq<string>, events: seq<Event>, groups: Groups, plan: Plan,
      g: nat, r: Event, score: real) returns (k: nat)
    requires Explains(assess, policy, priority, events, groups, plan) && g < |groups|
    requires Survivor(plan, events, r) && Precedes(r, groups[g][0], priority) && Resembles(assess, policy, groups[g][0], r, score)
    ensures k < g && groups[k][0] == r && Judge(assess, policy)(groups[g][0], r) == Judgement(Unsure, score)
  {
    k := SurvivorIsRoot(assess, policy, priority, events, groups, plan, r);
    PrecedesMeans(r, groups[g][0], priority);
    RootsInOrder(priority, groups, k, g);
    JudgeMeans(assess, policy, groups[g][0], r, score);
  }

  // Every survivor that resembles an earlier survivor is flagged.
  lemma ResemblingIsFlagged(assess: Assess, policy: Policy, priority: seq<string>, events: seq<Event>, e: Event, w: Event, score: real)
    requires UniqueEvents(events)
    requires Survivor(PlanOf(assess, policy, priority, events), events, e)
    requires Survivor(PlanOf(assess, policy, priority, events), events, w) && Precedes(w, e, priority)
    requires Resembles(assess, policy, e, w, score)
    ensures exists u :: u in PlanOf(assess, policy, priority, events).uncertain && u.event == e.id
  {
    var plan, judge := PlanOf(assess, policy, priority, events), Judge(assess, policy);
    var groups := PlanExplained(assess, policy, priority, events);
    var roots := Roots(groups);
    var g := SurvivorIsRoot(assess, policy, priority, events, groups, plan, e);
    var k := ResemblingRoot(assess, policy, priority, events, groups, plan, g, w, score);
    assert roots[..g][k] == w;
    FlagFor(judge, roots, g);
    var i :| 0 <= i < |Flags(judge, roots)| && Flags(judge, roots)[i].event == roots[g].id;
    assert plan.uncertain[i] in plan.uncertain;
  }
}
