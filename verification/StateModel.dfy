// The reduced score-state model: a finite grid of scores, one representative for each
// settlement vector that the grid reaches.

module StateModel {
  import opened Lines
  import opened Settlement
  import opened Coordinates
  import opened Classes
  import opened ScoreGrid
  import opened Sequences

  const GOAL_CAP := 12
  const CORNER_CAP := 20
  const CARD_CAP := 12

  datatype Options = Options(maxGoals: Option<int>, maxCorners: Option<int>, maxCards: Option<int>)

  datatype OutcomeState = OutcomeState(point: Point, vector: seq<SettlementResult>)

  datatype Unsettled = Unsettled(index: nat, reason: Reason)

  datatype Model = Model(states: seq<OutcomeState>, selectionIndices: seq<nat>, unknown: seq<Unsettled>)

  function AsMatch(p: Point): MatchState {
    MatchState(Finished, Some(p.full), p.first, None, None, None, p.corners, p.cards)
  }

  // ---------------------------------------------------------------- vectors

  // The model never settles anything itself: it is handed the settlement rule.
  type Rule = (Selection, MatchState) -> Settled

  function ResultOf(rule: Rule, s: Selection, m: MatchState): Option<SettlementResult> {
    match rule(s, m)
    case Settled(result, _) => Some(result)
    case _ => None
  }

  function Vector(rule: Rule, selections: seq<Selection>, m: MatchState): seq<Option<SettlementResult>> {
    seq(|selections|, i requires 0 <= i < |selections| => ResultOf(rule, selections[i], m))
  }

  ghost predicate Agree(rule: Rule, selections: seq<Selection>, m: MatchState, n: MatchState) {
    forall s :: s in selections ==> ResultOf(rule, s, m) == ResultOf(rule, s, n)
  }

  lemma AgreeingVectors(rule: Rule, selections: seq<Selection>, m: MatchState, n: MatchState)
    ensures Agree(rule, selections, m, n) <==> Vector(rule, selections, m) == Vector(rule, selections, n)
  {
    if Vector(rule, selections, m) == Vector(rule, selections, n) {
      forall s | s in selections ensures ResultOf(rule, s, m) == ResultOf(rule, s, n) {
        var i :| 0 <= i < |selections| && selections[i] == s;
        assert Vector(rule, selections, m)[i] == Vector(rule, selections, n)[i];
      }
    }
  }

  method SettleVector(rule: Rule, selections: seq<Selection>, m: MatchState)
    returns (results: seq<Option<SettlementResult>>, unknownIndices: seq<nat>)
    ensures results == Vector(rule, selections, m)
    ensures forall i :: i in unknownIndices <==> 0 <= i < |selections| && ResultOf(rule, selections[i], m).None?
  {
    results, unknownIndices := [], [];
    for i := 0 to |selections|
      invariant results == Vector(rule, selections[..i], m)
      invariant forall k :: k in unknownIndices <==> 0 <= k < i && ResultOf(rule, selections[k], m).None?
    {
      var outcome := rule(selections[i], m);
      assert selections[..i + 1] == selections[..i] + [selections[i]];
      if outcome.Settled? {
        results := results + [Some(outcome.result)];
      } else {
        results := results + [None];
        unknownIndices := unknownIndices + [i];
      }
    }
    assert selections[..|selections|] == selections;
  }

  // ---------------------------------------------------------------- limits

  function MaxBound(selections: seq<Selection>): (b: nat)
    ensures forall s :: s in selections ==> SelectionBound(s) <= b
    ensures b == 0 || exists s :: s in selections && SelectionBound(s) == b
  {
    if |selections| == 0 then 0
    else Max(MaxBound(selections[..|selections| - 1]), SelectionBound(selections[|selections| - 1]))
  }

  // One turn of the loop below.
  method RaiseTo(max: nat, s: Selection) returns (raised: nat)
    ensures raised == Max(max, SelectionBound(s))
  {
    raised := max;
    if s.line.Some? {
      var value := ParseCanonicalLine(s.line.value);
      if value.Some? {
        raised := Max(raised, CeilAbs(value.value));
      }
    }
    if s.family == ExactScore {
      var parsed := ParseScoreline(s.outcome);
      if parsed.Some? {
        raised := Max(raised, Max(parsed.value.0, parsed.value.1));
      }
    }
    if s.family == Btts || s.family == MatchResult || s.family == DoubleChance {
      raised := Max(raised, 1);
    }
  }

  method BoundaryMax(selections: seq<Selection>) returns (max: nat)
    ensures max == MaxBound(selections)
  {
    max := 0;
    for i := 0 to |selections|
      invariant max == MaxBound(selections[..i])
    {
      assert selections[..i + 1][..i] == selections[..i];
      max := RaiseTo(max, selections[i]);
    }
    assert selections[..|selections|] == selections;
  }

  function ResolveLimit(explicit: Option<int>, boundary: nat, cap: nat): nat {
    match explicit
    case Some(limit) => Max(limit, 0)
    case None => Min(Max(boundary + 1, 2), cap)
  }

  predicate IsHalf(p: Period) {
    p == FirstHalf || p == SecondHalf
  }

  function Goals(selections: seq<Selection>): seq<Selection> {
    Filter((s: Selection) => !IsCount(s), selections)
  }

  function Halves(selections: seq<Selection>): seq<Selection> {
    Filter((s: Selection) => IsHalf(s.period), selections)
  }

  function CornerSelections(selections: seq<Selection>): seq<Selection> {
    Filter((s: Selection) => s.family == Corners, selections)
  }

  function CardSelections(selections: seq<Selection>): seq<Selection> {
    Filter((s: Selection) => s.family == Cards, selections)
  }

  datatype Limits = Limits(full: nat, first: nat, corners: nat, cards: nat)

  // How far each grid goes.
  function LimitsOf(known: seq<Selection>, options: Options): Limits {
    Limits(ResolveLimit(options.maxGoals, MaxBound(Goals(known)), GOAL_CAP),
           ResolveLimit(options.maxGoals, MaxBound(Halves(Goals(known))), GOAL_CAP),
           ResolveLimit(options.maxCorners, MaxBound(CornerSelections(known)), CORNER_CAP),
           ResolveLimit(options.maxCards, MaxBound(CardSelections(known)), CARD_CAP))
  }

  // ---------------------------------------------------------------- grids

  const NOTHING := Point(ORIGIN, None, None, None)

  // The goal points enumerated for a set of goal selections.
  predicate InGoalGrid(goals: seq<Selection>, limits: Limits, p: Point) {
    if |goals| == 0 then p == NOTHING
    else InGoalSquare(limits.full, |Halves(goals)| > 0, limits.first, p)
  }

  // The count points enumerated for a set of corner or card selections.
  predicate InCountGrid(counted: seq<Selection>, corners: bool, limit: nat, p: Point) {
    if |counted| == 0 then p == NOTHING else InCountSquare(corners, limit, p)
  }

  // ---------------------------------------------------------------- equivalence classes

  // Some class settles every selection as p does.
  ghost predicate Represented(rule: Rule, selections: seq<Selection>, classes: seq<Point>, p: Point) {
    exists q :: q in classes && Agree(rule, selections, AsMatch(q), AsMatch(p))
  }

  ghost predicate Distinct(rule: Rule, selections: seq<Selection>, classes: seq<Point>) {
    forall i, j :: 0 <= i < j < |classes| ==> !Agree(rule, selections, AsMatch(classes[i]), AsMatch(classes[j]))
  }

  function KeyOf(rule: Rule, selections: seq<Selection>): Point -> seq<Option<SettlementResult>> {
    (p: Point) => Vector(rule, selections, AsMatch(p))
  }

  lemma KeyedClasses(rule: Rule, selections: seq<Selection>, classes: seq<Point>, keys: set<seq<Option<SettlementResult>>>)
    requires OnePerKey(KeyOf(rule, selections), classes, keys)
    ensures Distinct(rule, selections, classes)
    ensures forall p :: KeyOf(rule, selections)(p) in keys ==> Represented(rule, selections, classes, p)
  {
    var key := KeyOf(rule, selections);
    forall i, j | 0 <= i < j < |classes| ensures !Agree(rule, selections, AsMatch(classes[i]), AsMatch(classes[j])) {
      AgreeingVectors(rule, selections, AsMatch(classes[i]), AsMatch(classes[j]));
      assert key(classes[i]) != key(classes[j]);
    }
    forall p | key(p) in keys ensures Represented(rule, selections, classes, p) {
      assert Has(key, classes, key(p));
      var i :| 0 <= i < |classes| && key(classes[i]) == key(p);
      AgreeingVectors(rule, selections, AsMatch(classes[i]), AsMatch(p));
      assert classes[i] in classes;
    }
  }

  method BuildGoalClasses(rule: Rule, goals: seq<Selection>, maxGoals: Option<int>, ghost limits: Limits)
    returns (classes: seq<Point>)
    requires limits.full == ResolveLimit(maxGoals, MaxBound(goals), GOAL_CAP)
    requires limits.first == ResolveLimit(maxGoals, MaxBound(Halves(goals)), GOAL_CAP)
    ensures forall p :: p in classes ==> InGoalGrid(goals, limits, p)
    ensures forall p :: InGoalGrid(goals, limits, p) ==> Represented(rule, goals, classes, p)
    ensures Distinct(rule, goals, classes)
  {
    if |goals| == 0 {
      classes := [NOTHING];
      assert NOTHING in classes && Agree(rule, goals, AsMatch(NOTHING), AsMatch(NOTHING));
      return;
    }
    var full := BoundaryMax(goals);
    var first := BoundaryMax(Halves(goals));
    var keys;
    classes, keys := EnumerateGoals(KeyOf(rule, goals), ResolveLimit(maxGoals, full, GOAL_CAP), |Halves(goals)| > 0,
                                    ResolveLimit(maxGoals, first, GOAL_CAP));
    KeyedClasses(rule, goals, classes, keys);
  }

  method BuildCountClasses(rule: Rule, counted: seq<Selection>, corners: bool, max: Option<int>, cap: nat)
    returns (classes: seq<Point>)
    ensures forall p :: p in classes ==> InCountGrid(counted, corners, ResolveLimit(max, MaxBound(counted), cap), p)
    ensures forall p :: InCountGrid(counted, corners, ResolveLimit(max, MaxBound(counted), cap), p)
              ==> Represented(rule, counted, classes, p)
    ensures Distinct(rule, counted, classes)
  {
    if |counted| == 0 {
      classes := [NOTHING];
      assert NOTHING in classes && Agree(rule, counted, AsMatch(NOTHING), AsMatch(NOTHING));
      return;
    }
    var boundary := BoundaryMax(counted);
    var keys;
    classes, keys := EnumerateCounts(KeyOf(rule, counted), corners, ResolveLimit(max, boundary, cap));
    KeyedClasses(rule, counted, classes, keys);
  }

  // ---------------------------------------------------------------- the cross product

  function Combine(goal: Point, corner: Point, card: Point): Point {
    Point(goal.full, goal.first, corner.corners, card.cards)
  }

  predicate AllSettled(results: seq<Option<SettlementResult>>) {
    forall i :: 0 <= i < |results| ==> results[i].Some?
  }

  function Values(results: seq<Option<SettlementResult>>): (vector: seq<SettlementResult>)
    requires AllSettled(results)
    ensures |vector| == |results| && forall i :: 0 <= i < |results| ==> results[i] == Some(vector[i])
  {
    seq(|results|, i requires 0 <= i < |results| => results[i].value)
  }

  type Key = Point -> seq<Option<SettlementResult>>

  // Every state carries the vector of its representative, and no vector comes twice.
  ghost predicate StatesOf(key: Key, states: seq<OutcomeState>, seen: set<seq<SettlementResult>>) {
    && (forall i :: 0 <= i < |states| ==> states[i].vector in seen)
    && (forall v :: v in seen ==> HasState(states, v))
    && (forall i :: 0 <= i < |states| ==> AllSettled(key(states[i].point)) && states[i].vector == Values(key(states[i].point)))
    && (forall i, j :: 0 <= i < j < |states| ==> states[i].vector != states[j].vector)
  }

  ghost predicate HasState(states: seq<OutcomeState>, v: seq<SettlementResult>) {
    exists i :: 0 <= i < |states| && states[i].vector == v
  }

  ghost predicate Covered(results: seq<Option<SettlementResult>>, seen: set<seq<SettlementResult>>) {
    AllSettled(results) ==> Values(results) in seen
  }

  method AddState(key: Key, states: seq<OutcomeState>, seen: set<seq<SettlementResult>>, p: Point)
    returns (more: seq<OutcomeState>, moreSeen: set<seq<SettlementResult>>)
    requires StatesOf(key, states, seen)
    ensures StatesOf(key, more, moreSeen) && seen <= moreSeen && Covered(key(p), moreSeen)
    ensures more == states || (|more| == |states| + 1 && more[..|states|] == states && more[|states|].point == p)
  {
    more, moreSeen := states, seen;
    var results := key(p);
    if AllSettled(results) && Values(results) !in seen {
      var vector := Values(results);
      more, moreSeen := states + [OutcomeState(p, vector)], seen + {vector};
      forall v | v in moreSeen ensures HasState(more, v) {
        if v in seen {
          var i :| 0 <= i < |states| && states[i].vector == v;
          assert more[i] == states[i];
        } else {
          assert more[|states|].vector == v;
        }
      }
    }
  }

  ghost predicate IsCombination(goals: seq<Point>, corners: seq<Point>, cards: seq<Point>, p: Point) {
    exists g, c, k :: g in goals && c in corners && k in cards && p == Combine(g, c, k)
  }

  ghost predicate FromProduct(goals: seq<Point>, corners: seq<Point>, cards: seq<Point>, states: seq<OutcomeState>) {
    forall i :: 0 <= i < |states| ==> IsCombination(goals, corners, cards, states[i].point)
  }

  method CombineAll(key: Key, goals: seq<Point>, corners: seq<Point>, cards: seq<Point>)
    returns (states: seq<OutcomeState>, seen: set<seq<SettlementResult>>)
    ensures StatesOf(key, states, seen) && FromProduct(goals, corners, cards, states)
    ensures forall p :: IsCombination(goals, corners, cards, p) ==> Covered(key(p), seen)
  {
    states, seen := [], {};
    for g := 0 to |goals|
      invariant StatesOf(key, states, seen) && FromProduct(goals, corners, cards, states)
      invariant forall p :: IsCombination(goals[..g], corners, cards, p) ==> Covered(key(p), seen)
    {
      var before := seen;
      for c := 0 to |corners|
        invariant StatesOf(key, states, seen) && FromProduct(goals, corners, cards, states) && before <= seen
        invariant forall p :: IsCombination([goals[g]], corners[..c], cards, p) ==> Covered(key(p), seen)
      {
        var sofar := seen;
        for k := 0 to |cards|
          invariant StatesOf(key, states, seen) && FromProduct(goals, corners, cards, states) && sofar <= seen
          invariant forall p :: IsCombination([goals[g]], [corners[c]], cards[..k], p) ==> Covered(key(p), seen)
        {
          var p := Combine(goals[g], corners[c], cards[k]);
          assert IsCombination(goals, corners, cards, p);
          states, seen := AddState(key, states, seen, p);
        }
        assert cards[..|cards|] == cards;
      }
      assert corners[..|corners|] == corners;
    }
    assert goals[..|goals|] == goals;
  }

  // ---------------------------------------------------------------- which selections settle

  const PROBE := MatchState(Finished, Some(ORIGIN), Some(ORIGIN), None, None, None, Some(ORIGIN), Some(ORIGIN))

  ghost predicate NeverThrows(rule: Rule) {
    forall s, m :: rule(s, m) != Threw
  }

  predicate InScope(s: Selection) {
    s.period != ExtraTime && s.period != Penalties
  }

  predicate Modelled(rule: Rule, s: Selection) {
    InScope(s) && rule(s, PROBE).Settled?
  }

  function WhyNot(rule: Rule, s: Selection): Reason
    requires rule(s, PROBE) != Threw && !Modelled(rule, s)
  {
    if !InScope(s) then NoStateModel else rule(s, PROBE).reason
  }

  // The selections that settle, where they stand in the input, and the others with their reasons.
  function Known(rule: Rule, selections: seq<Selection>): (r: seq<Selection>)
    ensures forall s :: s in r <==> s in selections && Modelled(rule, s)
  {
    if |selections| == 0 then []
    else
      var n := |selections| - 1;
      Known(rule, selections[..n]) + if Modelled(rule, selections[n]) then [selections[n]] else []
  }

  function Indices(rule: Rule, selections: seq<Selection>): (r: seq<nat>)
    ensures |r| == |Known(rule, selections)|
    ensures forall k :: 0 <= k < |r| ==> r[k] < |selections| && selections[r[k]] == Known(rule, selections)[k]
    ensures forall j, k :: 0 <= j < k < |r| ==> r[j] < r[k]
  {
    if |selections| == 0 then []
    else
      var n := |selections| - 1;
      Indices(rule, selections[..n]) + if Modelled(rule, selections[n]) then [n] else []
  }

  function Unknowns(rule: Rule, selections: seq<Selection>): (r: seq<Unsettled>)
    requires forall s :: s in selections ==> rule(s, PROBE) != Threw
    ensures forall i :: 0 <= i < |selections| && !Modelled(rule, selections[i])
              ==> Unsettled(i, WhyNot(rule, selections[i])) in r
    ensures forall u :: u in r ==> u.index < |selections| && !Modelled(rule, selections[u.index])
  {
    if |selections| == 0 then []
    else
      var n := |selections| - 1;
      Unknowns(rule, selections[..n])
      + if Modelled(rule, selections[n]) then [] else [Unsettled(n, WhyNot(rule, selections[n]))]
  }

  // ---------------------------------------------------------------- the model

  function GoalPart(p: Point): Point {
    Point(p.full, p.first, None, None)
  }

  function CornerPart(p: Point): Point {
    Point(ORIGIN, None, p.corners, None)
  }

  function CardPart(p: Point): Point {
    Point(ORIGIN, None, None, p.cards)
  }

  function PartFor(s: Selection, p: Point): Point {
    if s.family == Corners then CornerPart(p) else if s.family == Cards then CardPart(p) else GoalPart(p)
  }

  // Corner and card selections see nothing but their counts; goal selections see no counts.
  ghost predicate Local(rule: Rule) {
    forall s, p :: ResultOf(rule, s, AsMatch(p)) == ResultOf(rule, s, AsMatch(PartFor(s, p)))
  }

  predicate InGrid(known: seq<Selection>, limits: Limits, p: Point) {
    && InGoalGrid(Goals(known), limits, GoalPart(p))
    && InCountGrid(CornerSelections(known), true, limits.corners, CornerPart(p))
    && InCountGrid(CardSelections(known), false, limits.cards, CardPart(p))
  }

  ghost predicate Reaches(rule: Rule, known: seq<Selection>, states: seq<OutcomeState>, p: Point) {
    AllSettled(Vector(rule, known, AsMatch(p))) ==> HasState(states, Values(Vector(rule, known, AsMatch(p))))
  }

  // One state for each settled vector that the grid reaches, each with a grid point that reaches it.
  ghost predicate ModelOf(rule: Rule, known: seq<Selection>, limits: Limits, states: seq<OutcomeState>) {
    if |known| == 0 then states == []
    else
      && (forall i :: 0 <= i < |states| ==> Witnessed(rule, known, limits, states[i]))
      && (forall p :: InGrid(known, limits, p) ==> Reaches(rule, known, states, p))
      && (forall i, j :: 0 <= i < j < |states| ==> states[i].vector != states[j].vector)
  }

  ghost predicate Witnessed(rule: Rule, known: seq<Selection>, limits: Limits, state: OutcomeState) {
    && InGrid(known, limits, state.point)
    && AllSettled(Vector(rule, known, AsMatch(state.point)))
    && state.vector == Values(Vector(rule, known, AsMatch(state.point)))
  }

  lemma Recombined(rule: Rule, known: seq<Selection>, g: Point, c: Point, k: Point, p: Point)
    requires Local(rule) && g == GoalPart(g) && c == CornerPart(c) && k == CardPart(k)
    requires Agree(rule, Goals(known), AsMatch(g), AsMatch(GoalPart(p)))
    requires Agree(rule, CornerSelections(known), AsMatch(c), AsMatch(CornerPart(p)))
    requires Agree(rule, CardSelections(known), AsMatch(k), AsMatch(CardPart(p)))
    ensures Agree(rule, known, AsMatch(Combine(g, c, k)), AsMatch(p))
  {
    var q := Combine(g, c, k);
    forall s | s in known ensures ResultOf(rule, s, AsMatch(q)) == ResultOf(rule, s, AsMatch(p)) {
      assert PartFor(s, q) == if s.family == Corners then c else if s.family == Cards then k else g;
      if s.family == Corners {
        assert s in CornerSelections(known);
      } else if s.family == Cards {
        assert s in CardSelections(known);
      } else {
        assert s in Goals(known);
      }
      assert ResultOf(rule, s, AsMatch(q)) == ResultOf(rule, s, AsMatch(PartFor(s, q)));
      assert ResultOf(rule, s, AsMatch(p)) == ResultOf(rule, s, AsMatch(PartFor(s, p)));
    }
  }

  lemma GridParts(goals: seq<Selection>, counted: seq<Selection>, corners: bool, limits: Limits, limit: nat, p: Point)
    ensures InGoalGrid(goals, limits, p) ==> p == GoalPart(p)
    ensures InCountGrid(counted, corners, limit, p) ==> p == if corners then CornerPart(p) else CardPart(p)
  {
  }

  lemma CombinationsInGrid(known: seq<Selection>, limits: Limits, g: Point, c: Point, k: Point)
    requires InGoalGrid(Goals(known), limits, g)
    requires InCountGrid(CornerSelections(known), true, limits.corners, c)
    requires InCountGrid(CardSelections(known), false, limits.cards, k)
    ensures InGrid(known, limits, Combine(g, c, k))
  {
    GridParts(Goals(known), [], true, limits, 0, g);
    GridParts([], CornerSelections(known), true, limits, limits.corners, c);
    GridParts([], CardSelections(known), false, limits, limits.cards, k);
    assert GoalPart(Combine(g, c, k)) == g;
    assert CornerPart(Combine(g, c, k)) == c;
    assert CardPart(Combine(g, c, k)) == k;
  }

  ghost predicate ClassesFor(rule: Rule, known: seq<Selection>, limits: Limits,
      goals: seq<Point>, corners: seq<Point>, cards: seq<Point>) {
    && (forall p :: p in goals ==> InGoalGrid(Goals(known), limits, p))
    && (forall p :: p in corners ==> InCountGrid(CornerSelections(known), true, limits.corners, p))
    && (forall p :: p in cards ==> InCountGrid(CardSelections(known), false, limits.cards, p))
    && (forall p :: InGoalGrid(Goals(known), limits, p) ==> Represented(rule, Goals(known), goals, p))
    && (forall p :: InCountGrid(CornerSelections(known), true, limits.corners, p)
          ==> Represented(rule, CornerSelections(known), corners, p))
    && (forall p :: InCountGrid(CardSelections(known), false, limits.cards, p)
          ==> Represented(rule, CardSelections(known), cards, p))
  }

  // Every grid point settles like some combination of the three classes.
  lemma ClassesReachGrid(rule: Rule, known: seq<Selection>, limits: Limits,
      goals: seq<Point>, corners: seq<Point>, cards: seq<Point>, p: Point) returns (q: Point)
    requires Local(rule) && ClassesFor(rule, known, limits, goals, corners, cards) && InGrid(known, limits, p)
    ensures IsCombination(goals, corners, cards, q)
    ensures Vector(rule, known, AsMatch(q)) == Vector(rule, known, AsMatch(p))
  {
    assert Represented(rule, Goals(known), goals, GoalPart(p));
    var g :| g in goals && Agree(rule, Goals(known), AsMatch(g), AsMatch(GoalPart(p)));
    assert Represented(rule, CornerSelections(known), corners, CornerPart(p));
    var c :| c in corners && Agree(rule, CornerSelections(known), AsMatch(c), AsMatch(CornerPart(p)));
    assert Represented(rule, CardSelections(known), cards, CardPart(p));
    var k :| k in cards && Agree(rule, CardSelections(known), AsMatch(k), AsMatch(CardPart(p)));
    q := Combine(g, c, k);
    GridParts(Goals(known), [], true, limits, 0, g);
    GridParts([], CornerSelections(known), true, limits, limits.corners, c);
    GridParts([], CardSelections(known), false, limits, limits.cards, k);
    Recombined(rule, known, g, c, k, p);
    AgreeingVectors(rule, known, AsMatch(q), AsMatch(p));
  }

  lemma ProductIsModel(rule: Rule, known: seq<Selection>, limits: Limits,
      goals: seq<Point>, corners: seq<Point>, cards: seq<Point>,
      states: seq<OutcomeState>, seen: set<seq<SettlementResult>>)
    requires |known| > 0 && Local(rule) && ClassesFor(rule, known, limits, goals, corners, cards)
    requires StatesOf(KeyOf(rule, known), states, seen) && FromProduct(goals, corners, cards, states)
    requires forall p :: IsCombination(goals, corners, cards, p) ==> Covered(KeyOf(rule, known)(p), seen)
    ensures ModelOf(rule, known, limits, states)
  {
    var key := KeyOf(rule, known);
    forall i | 0 <= i < |states| ensures Witnessed(rule, known, limits, states[i]) {
      assert IsCombination(goals, corners, cards, states[i].point);
      var g, c, k :| g in goals && c in corners && k in cards && states[i].point == Combine(g, c, k);
      CombinationsInGrid(known, limits, g, c, k);
      assert key(states[i].point) == Vector(rule, known, AsMatch(states[i].point));
    }
    forall p | InGrid(known, limits, p) ensures Reaches(rule, known, states, p) {
      var q := ClassesReachGrid(rule, known, limits, goals, corners, cards, p);
      assert key(q) == Vector(rule, known, AsMatch(q));
      assert Covered(key(q), seen);
    }
  }

  method Partition(rule: Rule, selections: seq<Selection>)
    returns (known: seq<Selection>, indices: seq<nat>, unknown: seq<Unsettled>)
    requires NeverThrows(rule)
    ensures known == Known(rule, selections) && indices == Indices(rule, selections)
    ensures unknown == Unknowns(rule, selections)
  {
    known, indices, unknown := [], [], [];
    for i := 0 to |selections|
      invariant known == Known(rule, selections[..i]) && indices == Indices(rule, selections[..i])
      invariant unknown == Unknowns(rule, selections[..i])
    {
      var s := selections[i];
      assert selections[..i + 1][..i] == selections[..i];
      if !InScope(s) {
        unknown := unknown + [Unsettled(i, NoStateModel)];
      } else {
        var outcome := rule(s, PROBE);
        if outcome.Unknown? {
          unknown := unknown + [Unsettled(i, outcome.reason)];
        } else {
          known, indices := known + [s], indices + [i];
        }
      }
    }
    assert selections[..|selections|] == selections;
  }

  method BuildStateModel(rule: Rule, selections: seq<Selection>, options: Options) returns (model: Model)
    requires NeverThrows(rule) && Local(rule)
    ensures model.selectionIndices == Indices(rule, selections) && model.unknown == Unknowns(rule, selections)
    ensures var known := Known(rule, selections);
            ModelOf(rule, known, LimitsOf(known, options), model.states)
  {
    var known, indices, unknown := Partition(rule, selections);
    if |known| == 0 {
      return Model([], indices, unknown);
    }
    ghost var limits := LimitsOf(known, options);
    var goals := BuildGoalClasses(rule, Goals(known), options.maxGoals, limits);
    var corners := BuildCountClasses(rule, CornerSelections(known), true, options.maxCorners, CORNER_CAP);
    var cards := BuildCountClasses(rule, CardSelections(known), false, options.maxCards, CARD_CAP);
    var states, seen := CombineAll(KeyOf(rule, known), goals, corners, cards);
    ProductIsModel(rule, known, limits, goals, corners, cards, states, seen);
    model := Model(states, indices, unknown);
  }
}
