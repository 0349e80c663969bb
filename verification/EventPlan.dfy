// The cross-provider reconciliation planner: which persisted events fold into which.

module EventPlan {
  import opened Lines
  import opened Sequences
  import opened Sorting
  import opened Matching

  datatype Source = Source(provider: string, sourceEventId: string)

  datatype Event = Event(
    id: string, homeTeam: string, awayTeam: string, competition: string, startTime: Option<int>,
    createdAt: Option<string>, sources: seq<Source>)

  datatype Merge = Merge(winner: string, loser: string, score: real, signals: Signals, moved: seq<Source>)

  datatype Uncertain = Uncertain(event: string, against: string, score: real)

  datatype Plan = Plan(merges: seq<Merge>, uncertain: seq<Uncertain>, standalone: seq<string>)

  // ---------------------------------------------------------------- the winner order

  // The first place of x, or |xs|.
  function IndexIn(xs: seq<string>, x: string): (i: nat)
    ensures i <= |xs| && (i < |xs| ==> xs[i] == x)
    ensures forall k :: 0 <= k < i ==> xs[k] != x
  {
    if |xs| == 0 || xs[0] == x then 0 else 1 + IndexIn(xs[1..], x)
  }

  function LeastRank(sources: seq<Source>, priority: seq<string>): (r: nat)
    requires |sources| > 0
    ensures r <= |priority|
  {
    var last := IndexIn(priority, sources[|sources| - 1].provider);
    if |sources| == 1 then last
    else
      var rest := LeastRank(sources[..|sources| - 1], priority);
      if rest < last then rest else last
  }

  function Rank(e: Event, priority: seq<string>): nat {
    if |e.sources| == 0 then |priority| + 1 else LeastRank(e.sources, priority)
  }

  function Created(e: Event): string {
    if e.createdAt.Some? then e.createdAt.value else ""
  }

  predicate Before(a: Event, b: Event, priority: seq<string>) {
    if Rank(a, priority) != Rank(b, priority) then Rank(a, priority) < Rank(b, priority)
    else if Created(a) != Created(b) then StrLess(Created(a), Created(b))
    else StrLess(a.id, b.id)
  }

  function Order(priority: seq<string>): (Event, Event) -> bool {
    (a: Event, b: Event) => Before(a, b, priority)
  }

  // ---------------------------------------------------------------- judging a pair

  function Providers(e: Event): set<string> {
    set s | s in e.sources :: s.provider
  }

  predicate CrossProvider(e: Event, winner: Event) {
    Providers(e) !! Providers(winner)
  }

  // The part of an id before its first colon.
  function BeforeColon(id: string): string {
    id[..IndexOf(id, ':')]
  }

  function RefOf(e: Event): Ref {
    var (provider, sourceEventId) :=
      if |e.sources| > 0 then (e.sources[0].provider, e.sources[0].sourceEventId) else (BeforeColon(e.id), e.id);
    Ref(provider, sourceEventId, e.homeTeam, e.awayTeam, Some(e.competition), e.startTime)
  }

  type Assess = (Ref, Ref) -> Assessment

  datatype Judgement = Judgement(kind: Kind, score: real)

  function Judge(assess: Assess, policy: Policy): (Event, Event) -> Judgement {
    (e: Event, winner: Event) =>
      if !CrossProvider(e, winner) then Judgement(NoMatch, 0.0)
      else
        var a := assess(RefOf(e), RefOf(winner));
        Judgement(Classify(a, policy), a.score)
  }

  // ---------------------------------------------------------------- seating

  type Verdicts = (Event, Event) -> Judgement

  // The group root of the given kind with the highest score, the earliest of equals.
  function Best(judge: Verdicts, roots: seq<Event>, e: Event, kind: Kind): (r: Option<nat>)
    ensures r.Some? ==> r.value < |roots| && judge(e, roots[r.value]).kind == kind
    ensures r.Some? ==> forall i :: 0 <= i < |roots| && judge(e, roots[i]).kind == kind
                          ==> judge(e, roots[i]).score <= judge(e, roots[r.value]).score
    ensures r.None? ==> forall i :: 0 <= i < |roots| ==> judge(e, roots[i]).kind != kind
  {
    if |roots| == 0 then None
    else
      var n := |roots| - 1;
      var best := Best(judge, roots[..n], e, kind);
      var j := judge(e, roots[n]);
      if j.kind == kind && (best.None? || j.score > judge(e, roots[best.value]).score) then Some(n) else best
  }

  type Groups = gs: seq<seq<Event>> | forall i :: 0 <= i < |gs| ==> |gs[i]| > 0

  function Roots(groups: Groups): (r: seq<Event>)
    ensures |r| == |groups| && forall i :: 0 <= i < |groups| ==> r[i] == groups[i][0]
  {
    seq(|groups|, i requires 0 <= i < |groups| => groups[i][0])
  }

  function Seat(judge: Verdicts, groups: Groups, e: Event): (r: Groups) {
    match Best(judge, Roots(groups), e, Confirmed)
    case Some(i) => groups[i := groups[i] + [e]]
    case None => groups + [[e]]
  }

  function Near(judge: Verdicts, groups: Groups, e: Event): seq<Uncertain> {
    if Best(judge, Roots(groups), e, Confirmed).Some? then []
    else
      match Best(judge, Roots(groups), e, Unsure)
      case None => []
      case Some(i) => [Uncertain(e.id, groups[i][0].id, judge(e, groups[i][0]).score)]
  }

  datatype Seating = Seating(groups: Groups, seated: set<string>, uncertain: seq<Uncertain>)

  // An event whose id is already seated is passed over.
  function Visit(judge: Verdicts, s: Seating, e: Event): Seating {
    if e.id in s.seated then s
    else Seating(Seat(judge, s.groups, e), s.seated + {e.id}, s.uncertain + Near(judge, s.groups, e))
  }

  function SeatAll(judge: Verdicts, ordered: seq<Event>): Seating {
    if |ordered| == 0 then Seating([], {}, [])
    else
      var n := |ordered| - 1;
      Visit(judge, SeatAll(judge, ordered[..n]), ordered[n])
  }

  // ---------------------------------------------------------------- the plan

  function MergeOf(assess: Assess, winner: Event, loser: Event): Merge {
    var a := assess(RefOf(loser), RefOf(winner));
    Merge(winner.id, loser.id, a.score, a.signals, loser.sources)
  }

  function MergesOf(assess: Assess, members: seq<Event>): seq<Merge>
    requires |members| > 0
  {
    seq(|members| - 1, i requires 0 <= i < |members| - 1 => MergeOf(assess, members[0], members[i + 1]))
  }

  function AllMerges(assess: Assess, groups: Groups): seq<Merge> {
    if |groups| == 0 then []
    else
      var n := |groups| - 1;
      AllMerges(assess, groups[..n]) + MergesOf(assess, groups[n])
  }

  function Standalone(groups: Groups): seq<string> {
    if |groups| == 0 then []
    else
      var n := |groups| - 1;
      Standalone(groups[..n]) + if |groups[n]| == 1 then [groups[n][0].id] else []
  }

  function PlanOf(assess: Assess, policy: Policy, priority: seq<string>, events: seq<Event>): Plan {
    var s := SeatAll(Judge(assess, policy), Sort(Order(priority), events));
    Plan(AllMerges(assess, s.groups), s.uncertain, Standalone(s.groups))
  }

  // ---------------------------------------------------------------- the loops

  // The scan over the groups for one event: the best confirmed and the best near match.
  method ScanRoots(judge: Verdicts, groups: Groups, e: Event) returns (best: Option<nat>, near: Option<nat>)
    ensures best == Best(judge, Roots(groups), e, Confirmed) && near == Best(judge, Roots(groups), e, Unsure)
  {
    best, near := None, None;
    ghost var roots := Roots(groups);
    for i := 0 to |groups|
      invariant best == Best(judge, roots[..i], e, Confirmed) && near == Best(judge, roots[..i], e, Unsure)
    {
      var winner := groups[i][0];
      assert roots[..i + 1][..i] == roots[..i];
      var j := judge(e, winner);
      if j.kind == Confirmed {
        if best.None? || j.score > judge(e, groups[best.value][0]).score {
          best := Some(i);
        }
      } else if j.kind == Unsure {
        if near.None? || j.score > judge(e, groups[near.value][0]).score {
          near := Some(i);
        }
      }
    }
    assert roots[..|groups|] == roots;
  }

  method VisitEvent(judge: Verdicts, s: Seating, e: Event) returns (r: Seating)
    ensures r == Visit(judge, s, e)
  {
    if e.id in s.seated {
      return s;
    }
    var best, near := ScanRoots(judge, s.groups, e);
    if best.Some? {
      return Seating(s.groups[best.value := s.groups[best.value] + [e]], s.seated + {e.id}, s.uncertain);
    }
    var flagged := if near.None? then []
                   else [Uncertain(e.id, s.groups[near.value][0].id, judge(e, s.groups[near.value][0]).score)];
    r := Seating(s.groups + [[e]], s.seated + {e.id}, s.uncertain + flagged);
  }

  method SeatEvents(judge: Verdicts, ordered: seq<Event>) returns (s: Seating)
    ensures s == SeatAll(judge, ordered)
  {
    s := Seating([], {}, []);
    for i := 0 to |ordered|
      invariant s == SeatAll(judge, ordered[..i])
    {
      assert ordered[..i + 1][..i] == ordered[..i];
      s := VisitEvent(judge, s, ordered[i]);
    }
    assert ordered[..|ordered|] == ordered;
  }

  method CollectMerges(assess: Assess, groups: Groups) returns (merges: seq<Merge>, standalone: seq<string>)
    ensures merges == AllMerges(assess, groups) && standalone == Standalone(groups)
  {
    merges, standalone := [], [];
    for i := 0 to |groups|
      invariant merges == AllMerges(assess, groups[..i]) && standalone == Standalone(groups[..i])
    {
      var members := groups[i];
      assert groups[..i + 1][..i] == groups[..i];
      if |members| == 1 {
        standalone := standalone + [members[0].id];
      }
      merges := merges + MergesOf(assess, members);
    }
    assert groups[..|groups|] == groups;
  }

  method PlanEventReconcile(assess: Assess, policy: Policy, priority: seq<string>, events: seq<Event>) returns (plan: Plan)
    ensures plan == PlanOf(assess, policy, priority, events)
  {
    var ordered := Sort(Order(priority), events);
    var s := SeatEvents(Judge(assess, policy), ordered);
    var merges, standalone := CollectMerges(assess, s.groups);
    plan := Plan(merges, s.uncertain, standalone);
  }
}
