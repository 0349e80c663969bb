// A plan applied to the tables: every fold of it applies, and the tables then hold what planning says.

module EventReconcile {
  import opened Lines
  import opened Sequences
  import opened Matching
  import opened EventPlan
  import opened EventPlanTheorems
  import EventMerge

  // The planner's events are the rows of the tables: the same ids, and the bindings as their sources.
  ghost predicate Lists(events: seq<Event>, db: EventMerge.Database) {
    && IdsOf(events) == db.events
    && forall key: EventMerge.BindingKey, id :: BindsTo(db.bindings, key, id) <==> SourcedBy(events, key, id)
  }

  ghost predicate BindsTo(bindings: map<EventMerge.BindingKey, string>, key: EventMerge.BindingKey, id: string) {
    key in bindings && bindings[key] == id
  }

  ghost predicate SourcedBy(events: seq<Event>, key: EventMerge.BindingKey, id: string) {
    exists e :: e in events && e.id == id && Source(key.0, key.1) in e.sources
  }

  function InputOf(m: Merge): EventMerge.MergeInput {
    EventMerge.MergeInput(m.winner, m.loser)
  }

  // ---------------------------------------------------------------- one fold

  // The fold names two of the events, and moves just what the loser has.
  ghost predicate Folds(events: seq<Event>, m: Merge) {
    && m.winner in IdsOf(events) && m.loser in IdsOf(events) && m.winner != m.loser
    && forall e :: e in events && e.id == m.loser ==> e.sources == m.moved
  }

  // What a fold makes of an event that it keeps.
  function Kept(m: Merge, e: Event): Event {
    if e.id == m.winner then e.(sources := e.sources + m.moved) else e
  }

  lemma KeptIsThere(events: seq<Event>, m: Merge, e: Event)
    requires e in events && e.id != m.loser
    ensures Kept(m, e) in ApplyMerge(events, m)
  {
    InFlatMap(EventPlanTheorems.Fold(m), events, Kept(m, e));
    assert Kept(m, e) in EventPlanTheorems.Fold(m)(e);
  }

  lemma ThereIsKept(events: seq<Event>, m: Merge, z: Event) returns (e: Event)
    requires z in ApplyMerge(events, m)
    ensures e in events && e.id != m.loser && z == Kept(m, e)
  {
    InFlatMap(EventPlanTheorems.Fold(m), events, z);
    e :| e in events && z in EventPlanTheorems.Fold(m)(e);
  }

  lemma MergedIds(events: seq<Event>, m: Merge)
    requires m.winner != m.loser
    ensures IdsOf(ApplyMerge(events, m)) == IdsOf(events) - {m.loser}
  {
    forall id | id in IdsOf(ApplyMerge(events, m)) ensures id in IdsOf(events) && id != m.loser {
      var z :| z in ApplyMerge(events, m) && z.id == id;
      var e := ThereIsKept(events, m, z);
    }
    forall id | id in IdsOf(events) && id != m.loser ensures id in IdsOf(ApplyMerge(events, m)) {
      var e :| e in events && e.id == id;
      KeptIsThere(events, m, e);
    }
  }

  lemma SourcedAfter(events: seq<Event>, m: Merge, key: EventMerge.BindingKey, id: string)
    requires Folds(events, m) && SourcedBy(ApplyMerge(events, m), key, id)
    ensures id != m.loser && (SourcedBy(events, key, id) || (id == m.winner && SourcedBy(events, key, m.loser)))
  {
    var source := Source(key.0, key.1);
    var z :| z in ApplyMerge(events, m) && z.id == id && source in z.sources;
    var e := ThereIsKept(events, m, z);
    if source !in e.sources {
      var l :| l in events && l.id == m.loser;
      assert source in l.sources;
    }
  }

  lemma StaysSourced(events: seq<Event>, m: Merge, key: EventMerge.BindingKey, id: string)
    requires id != m.loser && SourcedBy(events, key, id)
    ensures SourcedBy(ApplyMerge(events, m), key, id)
  {
    var e :| e in events && e.id == id && Source(key.0, key.1) in e.sources;
    KeptIsThere(events, m, e);
    assert Kept(m, e).id == id && Source(key.0, key.1) in Kept(m, e).sources;
  }

  lemma WinnerIsSourced(events: seq<Event>, m: Merge, key: EventMerge.BindingKey)
    requires Folds(events, m) && SourcedBy(events, key, m.loser)
    ensures SourcedBy(ApplyMerge(events, m), key, m.winner)
  {
    var l :| l in events && l.id == m.loser && Source(key.0, key.1) in l.sources;
    var e :| e in events && e.id == m.winner;
    KeptIsThere(events, m, e);
    assert Kept(m, e).id == m.winner && Source(key.0, key.1) in Kept(m, e).sources;
  }

  // What an event is sourced by after a fold: what it was, and for the winner what the loser was.
  lemma MergedSources(events: seq<Event>, m: Merge, key: EventMerge.BindingKey, id: string)
    requires Folds(events, m)
    ensures SourcedBy(ApplyMerge(events, m), key, id)
       <==> id != m.loser && (SourcedBy(events, key, id) || (id == m.winner && SourcedBy(events, key, m.loser)))
  {
    if SourcedBy(ApplyMerge(events, m), key, id) {
      SourcedAfter(events, m, key, id);
    }
    if id != m.loser && SourcedBy(events, key, id) {
      StaysSourced(events, m, key, id);
    }
    if id == m.winner && SourcedBy(events, key, m.loser) {
      WinnerIsSourced(events, m, key);
    }
  }

  lemma FoldLists(events: seq<Event>, db: EventMerge.Database, m: Merge)
    requires Lists(events, db) && Folds(events, m)
    ensures EventMerge.Applicable(db, InputOf(m))
    ensures Lists(ApplyMerge(events, m), EventMerge.FoldOnce(db, InputOf(m)))
  {
    var after := EventMerge.FoldOnce(db, InputOf(m));
    MergedIds(events, m);
    forall key: EventMerge.BindingKey, id
      ensures BindsTo(after.bindings, key, id) <==> SourcedBy(ApplyMerge(events, m), key, id)
    {
      MergedSources(events, m, key, id);
      assert BindsTo(db.bindings, key, id) <==> SourcedBy(events, key, id);
      assert BindsTo(db.bindings, key, m.loser) <==> SourcedBy(events, key, m.loser);
    }
  }

  // ---------------------------------------------------------------- a whole plan

  // Each fold pairs two events and moves what the loser has; no event loses twice, and none that loses wins.
  ghost predicate Foldable(events: seq<Event>, merges: seq<Merge>) {
    && (forall i :: 0 <= i < |merges| ==> Folds(events, merges[i]))
    && (forall i, j :: 0 <= i < j < |merges| ==> merges[i].loser != merges[j].loser)
    && (forall i, j :: 0 <= i < |merges| && 0 <= j < |merges| ==> merges[i].loser != merges[j].winner)
  }

  lemma TwiceCounts(ids: seq<string>, i: nat, j: nat)
    requires i < j < |ids| && ids[i] == ids[j]
    ensures CountId(ids, ids[i]) >= 2
  {
    assert ids == ids[..i] + [ids[i]] + ids[i + 1..j] + [ids[j]] + ids[j + 1..];
  }

  lemma OnceCounts(ids: seq<string>, i: nat)
    requires i < |ids|
    ensures CountId(ids, ids[i]) >= 1
  {
    assert ids[i] in multiset(ids);
  }

  lemma PlanFolds(assess: Assess, policy: Policy, priority: seq<string>, events: seq<Event>, i: nat)
    requires UniqueEvents(events) && i < |PlanOf(assess, policy, priority, events).merges|
    ensures Folds(events, PlanOf(assess, policy, priority, events).merges[i])
  {
    var plan := PlanOf(assess, policy, priority, events);
    var winner, loser := MergesAreConfirmed(assess, policy, priority, events, i);
    PlanPartitions(assess, policy, priority, events, plan, loser.id);
    OnceCounts(Map(LoserId, plan.merges), i);
    assert WinsIn(plan.merges, plan.merges[i].winner);
    forall e | e in events && e.id == loser.id ensures e == loser {
      SameEvent(events, e, loser);
    }
  }

  lemma SameEvent(events: seq<Event>, a: Event, b: Event)
    requires UniqueEvents(events) && a in events && b in events && a.id == b.id
    ensures a == b
  {
  }

  lemma PlanIsFoldable(assess: Assess, policy: Policy, priority: seq<string>, events: seq<Event>)
    requires UniqueEvents(events)
    ensures Foldable(events, PlanOf(assess, policy, priority, events).merges)
  {
    var plan := PlanOf(assess, policy, priority, events);
    var merges, losers := plan.merges, Map(LoserId, plan.merges);
    forall i | 0 <= i < |merges| ensures Folds(events, merges[i]) {
      PlanFolds(assess, policy, priority, events, i);
    }
    forall i, j | 0 <= i < j < |merges| ensures merges[i].loser != merges[j].loser {
      PlanPartitions(assess, policy, priority, events, plan, merges[i].loser);
      if losers[i] == losers[j] {
        TwiceCounts(losers, i, j);
      }
    }
    forall i, j | 0 <= i < |merges| && 0 <= j < |merges| ensures merges[i].loser != merges[j].winner {
      PlanPartitions(assess, policy, priority, events, plan, merges[i].loser);
      OnceCounts(losers, i);
      assert WinsIn(merges, merges[j].winner);
    }
  }

  function InputsOf(merges: seq<Merge>): seq<EventMerge.MergeInput> {
    Map(InputOf, merges)
  }

  lemma FoldableFront(events: seq<Event>, merges: seq<Merge>, front: seq<Merge>, m: Merge)
    requires Foldable(events, merges) && merges == front + [m]
    ensures Foldable(events, front) && Folds(events, m) && !Loses(front, m.winner) && !Loses(front, m.loser) && !WinsIn(front, m.loser)
  {
    assert forall i :: 0 <= i < |front| ==> front[i] == merges[i];
    assert merges[|front|] == m;
  }

  lemma {:induction false} GainsNothing(merges: seq<Merge>, id: string)
    requires !WinsIn(merges, id)
    ensures Gained(merges, id) == []
  {
    if |merges| > 0 {
      var n := |merges| - 1;
      assert forall i :: 0 <= i < n ==> merges[..n][i] == merges[i];
      assert merges[n].winner != id;
      GainsNothing(merges[..n], id);
    }
  }

  // After the folds before it, a fold still names two of the events and moves just what the loser has.
  lemma StillFolds(events: seq<Event>, merges: seq<Merge>, front: seq<Merge>, m: Merge)
    requires Foldable(events, merges) && merges == front + [m]
    ensures Folds(ApplyAll(events, front), m)
  {
    FoldableFront(events, merges, front, m);
    StaysIn(events, front, m.winner);
    StaysIn(events, front, m.loser);
    forall e | e in ApplyAll(events, front) && e.id == m.loser ensures e.sources == m.moved {
      ApplyAllHolds(events, front, e);
      var x :| x in events && Becomes(front, x, e);
      GainsNothing(front, m.loser);
      assert x.sources + [] == x.sources;
    }
  }

  lemma StaysIn(events: seq<Event>, merges: seq<Merge>, id: string)
    requires id in IdsOf(events) && !Loses(merges, id)
    ensures id in IdsOf(ApplyAll(events, merges))
  {
    var x :| x in events && x.id == id;
    assert Becomes(merges, x, After(merges, x));
    ApplyAllHolds(events, merges, After(merges, x));
  }

  ghost predicate AllApplied(outcomes: seq<EventMerge.MergeOutcome>) {
    forall i :: 0 <= i < |outcomes| ==> outcomes[i].status == EventMerge.Applied
  }

  lemma {:induction false} FoldAllLists(events: seq<Event>, db: EventMerge.Database, merges: seq<Merge>)
    requires Lists(events, db) && Foldable(events, merges)
    ensures Lists(ApplyAll(events, merges), EventMerge.FoldAll(db, InputsOf(merges)))
    ensures AllApplied(EventMerge.OutcomesOf(db, InputsOf(merges), false))
    decreases |merges|
  {
    if |merges| > 0 {
      var n := |merges| - 1;
      var front, m := merges[..n], merges[n];
      assert merges == front + [m];
      FoldableFront(events, merges, front, m);
      FoldAllLists(events, db, front);
      StillFolds(events, merges, front, m);
      FoldLists(ApplyAll(events, front), EventMerge.FoldAll(db, InputsOf(front)), m);
      assert InputsOf(merges)[..n] == InputsOf(front);
    }
  }

  // Applied to the tables it was made from, a plan never fails; the tables then hold what the planner's own
  // application of it says, and planning from that list again finds nothing to fold.
  lemma PlanApplies(assess: Assess, policy: Policy, priority: seq<string>, events: seq<Event>, db: EventMerge.Database,
      merges: seq<Merge>)
    requires UniqueEvents(events) && Lists(events, db) && merges == PlanOf(assess, policy, priority, events).merges
    ensures AllApplied(EventMerge.OutcomesOf(db, InputsOf(merges), false))
    ensures Lists(ApplyAll(events, merges), EventMerge.FoldAll(db, InputsOf(merges)))
    ensures PlanOf(assess, policy, priority, ApplyAll(events, merges)).merges == []
  {
    PlanIsFoldable(assess, policy, priority, events);
    FoldAllLists(events, db, merges);
    PlanningIsIdempotent(assess, policy, priority, events);
  }
}
