// Applying folds to the event tables: every child of the loser moves to the winner, then the
// loser row goes.

module EventMerge {
  import opened Lines
  import opened Sequences

  datatype Episode = Episode(eventId: string, structureType: string, legKey: string)

  datatype Opportunity = Opportunity(eventId: string, episodeId: Option<string>)

  datatype MoveCounts = MoveCounts(bindings: nat, markets: nat, opportunities: nat, episodes: nat)

  const ZERO_MOVES := MoveCounts(0, 0, 0, 0)

  datatype MergeInput = MergeInput(winner: string, loser: string)

  datatype Status = Planned | Applied | Failed

  datatype MergeOutcome = MergeOutcome(input: MergeInput, status: Status, moved: MoveCounts)

  type BindingKey = (string, string)

  // ---------------------------------------------------------------- re-pointing rows

  function Repointed(eventId: string, loser: string, winner: string): string {
    if eventId == loser then winner else eventId
  }

  function RepointRows<K>(rows: map<K, string>, loser: string, winner: string): (r: map<K, string>)
    ensures r.Keys == rows.Keys
  {
    map k | k in rows :: Repointed(rows[k], loser, winner)
  }

  function RowsOf<K>(rows: map<K, string>, event: string): set<K> {
    set k | k in rows && rows[k] == event
  }

  function OpportunitiesOf(rows: map<string, Opportunity>, event: string): set<string> {
    set k | k in rows && rows[k].eventId == event
  }

  function EpisodesOf(rows: map<string, Episode>, event: string): set<string> {
    set k | k in rows && rows[k].eventId == event
  }

  function RepointOpportunities(rows: map<string, Opportunity>, loser: string, winner: string): (r: map<string, Opportunity>)
    ensures r.Keys == rows.Keys
  {
    map k | k in rows :: rows[k].(eventId := Repointed(rows[k].eventId, loser, winner))
  }

  function MoveOpportunities(rows: map<string, Opportunity>, from: string, to: string): (r: map<string, Opportunity>)
    ensures r.Keys == rows.Keys
  {
    map k | k in rows :: if rows[k].episodeId == Some(from) then rows[k].(episodeId := Some(to)) else rows[k]
  }

  // ---------------------------------------------------------------- episodes

  predicate SameStructure(a: Episode, b: Episode) {
    a.structureType == b.structureType && a.legKey == b.legKey
  }

  // The unique index on (event, structure, legs).
  ghost predicate UniqueEpisodes(rows: map<string, Episode>) {
    forall a, b :: a in rows && b in rows && a != b && rows[a].eventId == rows[b].eventId ==> !SameStructure(rows[a], rows[b])
  }

  // The winner's episode that an episode of the loser collides with, itself when there is none.
  ghost function Twin(rows: map<string, Episode>, winner: string, id: string): (twin: string)
    requires id in rows
    ensures twin in rows && (twin == id || (rows[twin].eventId == winner && SameStructure(rows[twin], rows[id])))
  {
    if k :| k in rows && rows[k].eventId == winner && SameStructure(rows[k], rows[id]) then k else id
  }

  // The episode table once the loser's episodes in `done` have moved: a colliding one is dropped.
  ghost function MovedEpisodes(rows: map<string, Episode>, winner: string, done: set<string>): map<string, Episode> {
    map k | k in rows && !(k in done && Twin(rows, winner, k) != k) ::
      if k in done then rows[k].(eventId := winner) else rows[k]
  }

  // The opportunity table then: those of a dropped episode belong to its twin.
  ghost function MovedOpportunities(rows: map<string, Opportunity>, episodes: map<string, Episode>, winner: string,
      done: set<string>): map<string, Opportunity> {
    map k | k in rows ::
      if rows[k].episodeId.Some? && rows[k].episodeId.value in done && rows[k].episodeId.value in episodes then
        rows[k].(episodeId := Some(Twin(episodes, winner, rows[k].episodeId.value)))
      else rows[k]
  }

  ghost predicate AllOf(rows: map<string, Episode>, event: string, ids: set<string>) {
    forall d :: d in ids ==> d in rows && rows[d].eventId == event
  }

  // Whether the current table holds a collision for one more loser episode, and which.
  lemma CollisionIsTwin(rows: map<string, Episode>, winner: string, loser: string, done: set<string>, id: string, k: string)
    requires UniqueEpisodes(rows) && winner != loser && id in rows && rows[id].eventId == loser && id !in done
    requires AllOf(rows, loser, done)
    requires var now := MovedEpisodes(rows, winner, done);
             k in now && now[k].eventId == winner && SameStructure(now[k], rows[id])
    ensures k == Twin(rows, winner, id) && k != id && k in rows && k !in done
  {
    assert k in rows && (k in done ==> rows[k].eventId == loser && SameStructure(rows[k], rows[id]));
  }

  lemma TwinStays(rows: map<string, Episode>, winner: string, loser: string, done: set<string>, id: string)
    requires winner != loser && id in rows && AllOf(rows, loser, done)
    ensures var (twin, now) := (Twin(rows, winner, id), MovedEpisodes(rows, winner, done));
            twin != id ==> twin in now && now[twin] == rows[twin]
  {
    var twin := Twin(rows, winner, id);
    assert twin != id ==> twin !in done;
  }

  lemma NoCollisionNoTwin(rows: map<string, Episode>, winner: string, loser: string, done: set<string>, id: string,
      now: map<string, Episode>)
    requires winner != loser && id in rows && AllOf(rows, loser, done)
    requires now == MovedEpisodes(rows, winner, done)
    requires forall k :: k in now && now[k].eventId == winner ==> !SameStructure(now[k], rows[id])
    ensures Twin(rows, winner, id) == id
  {
    TwinStays(rows, winner, loser, done, id);
  }

  // Every reference resolves, and the unique index holds.
  ghost predicate ValidTables(events: set<string>, bindings: map<BindingKey, string>, markets: map<string, string>,
      opportunities: map<string, Opportunity>, episodes: map<string, Episode>) {
    && (forall k :: k in bindings ==> bindings[k] in events)
    && (forall k :: k in markets ==> markets[k] in events)
    && (forall k :: k in opportunities ==> opportunities[k].eventId in events)
    && (forall k :: k in opportunities && opportunities[k].episodeId.Some? ==> opportunities[k].episodeId.value in episodes)
    && (forall k :: k in episodes ==> episodes[k].eventId in events)
    && UniqueEpisodes(episodes)
  }

  // ---------------------------------------------------------------- folds

  datatype Database = Database(
    events: set<string>, bindings: map<BindingKey, string>, markets: map<string, string>,
    opportunities: map<string, Opportunity>, episodes: map<string, Episode>)
  {
    ghost predicate Valid() {
      ValidTables(events, bindings, markets, opportunities, episodes)
    }
  }

  predicate Applicable(db: Database, input: MergeInput) {
    input.winner in db.events && input.loser in db.events && input.winner != input.loser
  }

  function ChildrenOf(db: Database, event: string): MoveCounts {
    MoveCounts(|RowsOf(db.bindings, event)|, |RowsOf(db.markets, event)|, |OpportunitiesOf(db.opportunities, event)|,
               |EpisodesOf(db.episodes, event)|)
  }

  ghost function Folded(db: Database, winner: string, loser: string): Database {
    var done := EpisodesOf(db.episodes, loser);
    Database(db.events - {loser}, RepointRows(db.bindings, loser, winner), RepointRows(db.markets, loser, winner),
             MovedOpportunities(RepointOpportunities(db.opportunities, loser, winner), db.episodes, winner, done),
             MovedEpisodes(db.episodes, winner, done))
  }

  // A fold that throws changes nothing.
  ghost function FoldOnce(db: Database, input: MergeInput): Database {
    if Applicable(db, input) then Folded(db, input.winner, input.loser) else db
  }

  ghost function FoldAll(db: Database, inputs: seq<MergeInput>): Database {
    if |inputs| == 0 then db
    else FoldOnce(FoldAll(db, inputs[..|inputs| - 1]), inputs[|inputs| - 1])
  }

  // What is recorded of one fold: its status and what it moved, or would move.
  function OutcomeOf(db: Database, input: MergeInput, dryRun: bool): MergeOutcome {
    if dryRun then
      if input.loser in db.events then MergeOutcome(input, Planned, ChildrenOf(db, input.loser))
      else MergeOutcome(input, Failed, ZERO_MOVES)
    else if Applicable(db, input) then MergeOutcome(input, Applied, ChildrenOf(db, input.loser))
    else MergeOutcome(input, Failed, ZERO_MOVES)
  }

  ghost function OutcomesOf(db: Database, inputs: seq<MergeInput>, dryRun: bool): (r: seq<MergeOutcome>)
    ensures |r| == |inputs|
  {
    if |inputs| == 0 then []
    else
      var n := |inputs| - 1;
      OutcomesOf(db, inputs[..n], dryRun)
      + [OutcomeOf(if dryRun then db else FoldAll(db, inputs[..n]), inputs[n], dryRun)]
  }

  function WithStatus(status: Status): MergeOutcome -> bool {
    (o: MergeOutcome) => o.status == status
  }

  class Store {
    var events: set<string>
    var bindings: map<BindingKey, string>
    var markets: map<string, string>
    var opportunities: map<string, Opportunity>
    var episodes: map<string, Episode>

    ghost function Abs(): Database
      reads this
    {
      Database(events, bindings, markets, opportunities, episodes)
    }

    ghost predicate Valid()
      reads this
    {
      Abs().Valid()
    }

    constructor ()
      ensures Valid() && events == {} && bindings == map[] && markets == map[] && opportunities == map[] && episodes == map[]
    {
      events, bindings, markets, opportunities, episodes := {}, map[], map[], map[], map[];
    }

    // One turn of the loop below: the episode changes owner, or its opportunities do.
    method MoveNext(id: string, loser: string, winner: string, ghost rows: map<string, Episode>,
        ghost opps: map<string, Opportunity>, ghost done: set<string>, ghost more: set<string>)
      requires UniqueEpisodes(rows) && winner != loser && AllOf(rows, loser, more) && id !in done && more == done + {id}
      requires AtStep(rows, opps, winner, done)
      modifies this`opportunities, this`episodes
      ensures AtStep(rows, opps, winner, more)
    {
      assert AllOf(rows, loser, done) && id in more;
      assert id in episodes && episodes[id] == rows[id];
      var episode := episodes[id];
      if conflict :| conflict in episodes && episodes[conflict].eventId == winner && SameStructure(episodes[conflict], episode) {
        CollisionIsTwin(rows, winner, loser, done, id, conflict);
        MovedDropped(rows, opps, winner, loser, done, id, conflict);
        opportunities := MoveOpportunities(opportunities, id, conflict);
        episodes := episodes - {id};
      } else {
        NoCollisionNoTwin(rows, winner, loser, done, id, episodes);
        MovedKept(rows, opps, winner, loser, done, id);
        episodes := episodes[id := episode.(eventId := winner)];
      }
    }

    method MoveAll(ids: set<string>, loser: string, winner: string)
      requires UniqueEpisodes(episodes) && winner != loser && AllOf(episodes, loser, ids)
      modifies this`opportunities, this`episodes
      ensures episodes == MovedEpisodes(old(episodes), winner, ids)
      ensures opportunities == MovedOpportunities(old(opportunities), old(episodes), winner, ids)
    {
      ghost var rows, opps := episodes, opportunities;
      var left := ids;
      MovedNone(rows, opps, winner);
      assert ids - left == {};
      while left != {}
        invariant left <= ids && AtStep(rows, opps, winner, ids - left)
        decreases |left|
      {
        var id :| id in left;
        ghost var done, more := ids - left, ids - (left - {id});
        assert more == done + {id};
        MoveNext(id, loser, winner, rows, opps, done, more);
        left := left - {id};
      }
      assert ids - left == ids;
    }

    // The tables once the episodes in `done` have moved.
    ghost predicate AtStep(rows: map<string, Episode>, opps: map<string, Opportunity>, winner: string, done: set<string>)
      reads this
    {
      episodes == MovedEpisodes(rows, winner, done) && opportunities == MovedOpportunities(opps, rows, winner, done)
    }

    // The loop over the loser's episodes.
    method MoveEpisodes(loser: string, winner: string) returns (moved: nat)
      requires UniqueEpisodes(episodes) && winner != loser
      modifies this`opportunities, this`episodes
      ensures moved == |EpisodesOf(old(episodes), loser)|
      ensures episodes == MovedEpisodes(old(episodes), winner, EpisodesOf(old(episodes), loser))
      ensures opportunities == MovedOpportunities(old(opportunities), old(episodes), winner, EpisodesOf(old(episodes), loser))
    {
      var ids := EpisodesOf(episodes, loser);
      moved := |ids|;
      MoveAll(ids, loser, winner);
    }

    // One fold, in one transaction; None is the exception for an unknown event or a self-fold.
    method ApplyEventMerge(input: MergeInput) returns (r: Option<MoveCounts>)
      requires Valid()
      modifies this
      ensures Valid()
      ensures r == if Applicable(old(Abs()), input) then Some(ChildrenOf(old(Abs()), input.loser)) else None
      ensures Abs() == FoldOnce(old(Abs()), input)
    {
      var winner, loser := input.winner, input.loser;
      if winner !in events || loser !in events || winner == loser {
        return None;
      }
      var bound, marketed := |RowsOf(bindings, loser)|, |RowsOf(markets, loser)|;
      var offered := |OpportunitiesOf(opportunities, loser)|;
      FoldKeepsTables(events, bindings, markets, opportunities, episodes, winner, loser);
      bindings := RepointRows(bindings, loser, winner);
      markets := RepointRows(markets, loser, winner);
      opportunities := RepointOpportunities(opportunities, loser, winner);
      var moved := MoveEpisodes(loser, winner);
      events := events - {loser};
      r := Some(MoveCounts(bound, marketed, offered, moved));
    }

    method CountLoserChildren(loser: string) returns (r: Option<MoveCounts>)
      ensures r == if loser in events then Some(ChildrenOf(Abs(), loser)) else None
    {
      if loser !in events {
        return None;
      }
      r := Some(MoveCounts(|RowsOf(bindings, loser)|, |RowsOf(markets, loser)|, |OpportunitiesOf(opportunities, loser)|,
                           |EpisodesOf(episodes, loser)|));
    }

    // One turn of the loop below.
    method ProcessMerge(input: MergeInput, dryRun: bool) returns (outcome: MergeOutcome)
      requires Valid()
      modifies this
      ensures Valid() && outcome == OutcomeOf(old(Abs()), input, dryRun)
      ensures Abs() == if dryRun then old(Abs()) else FoldOnce(old(Abs()), input)
    {
      if dryRun {
        var moved := CountLoserChildren(input.loser);
        outcome := if moved.Some? then MergeOutcome(input, Planned, moved.value) else MergeOutcome(input, Failed, ZERO_MOVES);
      } else {
        var moved := ApplyEventMerge(input);
        outcome := if moved.Some? then MergeOutcome(input, Applied, moved.value) else MergeOutcome(input, Failed, ZERO_MOVES);
      }
    }

    // A plan, fold by fold; a fold that throws is recorded and the run goes on.
    method ApplyReconcilePlan(merges: seq<MergeInput>, dryRun: bool, maxMerges: Option<int>)
      returns (outcomes: seq<MergeOutcome>, applied: nat, failed: nat)
      requires Valid()
      modifies this
      ensures Valid()
      ensures outcomes == OutcomesOf(old(Abs()), merges[..Requested(merges, maxMerges)], dryRun)
      ensures Abs() == if dryRun then old(Abs()) else FoldAll(old(Abs()), merges[..Requested(merges, maxMerges)])
      ensures applied == Count(WithStatus(Applied), outcomes) && failed == Count(WithStatus(Failed), outcomes)
    {
      outcomes, applied, failed := [], 0, 0;
      var inputs := merges[..Requested(merges, maxMerges)];
      ghost var db := Abs();
      for i := 0 to |inputs|
        invariant Valid() && outcomes == OutcomesOf(db, inputs[..i], dryRun)
        invariant Abs() == if dryRun then db else FoldAll(db, inputs[..i])
        invariant applied == Count(WithStatus(Applied), outcomes) && failed == Count(WithStatus(Failed), outcomes)
      {
        assert inputs[..i + 1][..i] == inputs[..i];
        var outcome := ProcessMerge(inputs[i], dryRun);
        CountSnoc(WithStatus(Applied), outcomes, outcome);
        CountSnoc(WithStatus(Failed), outcomes, outcome);
        outcomes := outcomes + [outcome];
        applied := applied + if outcome.status == Applied then 1 else 0;
        failed := failed + if outcome.status == Failed then 1 else 0;
      }
      assert inputs[..|inputs|] == inputs;
    }
  }

  // How many folds a run processes.
  function Requested(merges: seq<MergeInput>, maxMerges: Option<int>): (n: nat)
    ensures n <= |merges| && (maxMerges.None? ==> n == |merges|)
    ensures maxMerges.Some? && n != maxMerges.value ==> (maxMerges.value < 0 && n == 0) || (maxMerges.value > |merges| && n == |merges|)
  {
    var limit := if maxMerges.Some? then maxMerges.value else |merges|;
    if limit < 0 then 0 else if limit < |merges| then limit else |merges|
  }

  // ---------------------------------------------------------------- what a fold keeps

  lemma EpisodesStayUnique(rows: map<string, Episode>, winner: string, loser: string, done: set<string>)
    requires UniqueEpisodes(rows) && winner != loser && done == EpisodesOf(rows, loser)
    ensures UniqueEpisodes(MovedEpisodes(rows, winner, done))
  {
    var now := MovedEpisodes(rows, winner, done);
    forall a, b | a in now && b in now && a != b && now[a].eventId == now[b].eventId ensures !SameStructure(now[a], now[b]) {
      if a in done && b !in done {
        NotTwin(rows, winner, a, b);
      } else if b in done && a !in done {
        NotTwin(rows, winner, b, a);
      }
    }
  }

  // An episode without a twin collides with no episode of the winner.
  lemma NotTwin(rows: map<string, Episode>, winner: string, a: string, b: string)
    requires a in rows && b in rows && Twin(rows, winner, a) == a && rows[a].eventId != winner
    ensures rows[b].eventId == winner ==> !SameStructure(rows[b], rows[a])
  {
  }

  lemma EpisodesLeaveLoser(rows: map<string, Episode>, winner: string, loser: string, events: set<string>)
    requires winner != loser && winner in events && forall k :: k in rows ==> rows[k].eventId in events
    ensures var now := MovedEpisodes(rows, winner, EpisodesOf(rows, loser));
            forall k :: k in now ==> now[k].eventId in events - {loser}
  {
  }

  // A fold leaves the tables without a dangling reference or a broken index.
  lemma FoldKeepsTables(events: set<string>, bindings: map<BindingKey, string>, markets: map<string, string>,
      opportunities: map<string, Opportunity>, episodes: map<string, Episode>, winner: string, loser: string)
    requires ValidTables(events, bindings, markets, opportunities, episodes) && winner in events && winner != loser
    ensures var done := EpisodesOf(episodes, loser);
            ValidTables(events - {loser}, RepointRows(bindings, loser, winner), RepointRows(markets, loser, winner),
                        MovedOpportunities(RepointOpportunities(opportunities, loser, winner), episodes, winner, done),
                        MovedEpisodes(episodes, winner, done))
  {
    EpisodesStayUnique(episodes, winner, loser, EpisodesOf(episodes, loser));
    EpisodesLeaveLoser(episodes, winner, loser, events);
    OpportunitiesStayBound(opportunities, episodes, winner, loser, events);
  }

  // Opportunities leave the loser, keep an existing episode, and stay on the event of their episode.
  lemma OpportunitiesStayBound(opps: map<string, Opportunity>, rows: map<string, Episode>, winner: string, loser: string,
      events: set<string>)
    requires winner != loser && winner in events
    requires forall k :: k in opps ==> opps[k].eventId in events && (opps[k].episodeId.Some? ==> opps[k].episodeId.value in rows)
    ensures var (now, after) := (MovedEpisodes(rows, winner, EpisodesOf(rows, loser)),
                                 MovedOpportunities(RepointOpportunities(opps, loser, winner), rows, winner, EpisodesOf(rows, loser)));
            && after.Keys == opps.Keys
            && (forall k :: k in after ==>
                  after[k].eventId in events - {loser} && (after[k].episodeId.Some? ==> after[k].episodeId.value in now))
            && (forall k :: k in opps && opps[k].episodeId.Some? && opps[k].eventId == rows[opps[k].episodeId.value].eventId ==>
                  after[k].episodeId.Some? && after[k].eventId == now[after[k].episodeId.value].eventId)
  {
    var done := EpisodesOf(rows, loser);
    var now := MovedEpisodes(rows, winner, done);
    var after := MovedOpportunities(RepointOpportunities(opps, loser, winner), rows, winner, done);
    forall k | k in opps && opps[k].episodeId.Some?
      ensures after[k].episodeId.Some? && after[k].episodeId.value in now
      ensures opps[k].eventId == rows[opps[k].episodeId.value].eventId ==>
                after[k].eventId == now[after[k].episodeId.value].eventId
    {
      var id := opps[k].episodeId.value;
      if id in done {
        var twin := Twin(rows, winner, id);
        assert twin != id ==> twin !in done;
        assert after[k].episodeId == Some(twin) && twin in now && now[twin].eventId == winner;
      } else {
        assert id in now && now[id] == rows[id];
      }
    }
  }

  lemma MovedNone(rows: map<string, Episode>, opps: map<string, Opportunity>, winner: string)
    ensures MovedEpisodes(rows, winner, {}) == rows
    ensures MovedOpportunities(opps, rows, winner, {}) == opps
  {
  }

  lemma MovedDropped(rows: map<string, Episode>, opps: map<string, Opportunity>, winner: string, loser: string,
      done: set<string>, id: string, k: string)
    requires id in rows && id !in done && k == Twin(rows, winner, id) && k != id
    requires rows[id].eventId == loser && winner != loser
    requires AllOf(rows, loser, done)
    ensures MovedEpisodes(rows, winner, done) - {id} == MovedEpisodes(rows, winner, done + {id})
    ensures MoveOpportunities(MovedOpportunities(opps, rows, winner, done), id, k)
         == MovedOpportunities(opps, rows, winner, done + {id})
  {
    forall o | o in opps
      ensures MoveOpportunities(MovedOpportunities(opps, rows, winner, done), id, k)[o]
           == MovedOpportunities(opps, rows, winner, done + {id})[o]
    {
    }
  }

  lemma MovedKept(rows: map<string, Episode>, opps: map<string, Opportunity>, winner: string, loser: string,
      done: set<string>, id: string)
    requires id in rows && id !in done && Twin(rows, winner, id) == id
    ensures var now := MovedEpisodes(rows, winner, done);
            id in now && now[id := now[id].(eventId := winner)] == MovedEpisodes(rows, winner, done + {id})
    ensures MovedOpportunities(opps, rows, winner, done) == MovedOpportunities(opps, rows, winner, done + {id})
  {
  }

  // ---------------------------------------------------------------- what a run of folds does

  lemma FoldOnceKeeps(db: Database, input: MergeInput)
    requires db.Valid()
    ensures FoldOnce(db, input).Valid()
    ensures FoldOnce(db, input).events <= db.events && !Applicable(FoldOnce(db, input), input)
    ensures |FoldOnce(db, input).events| == |db.events| - if Applicable(db, input) then 1 else 0
  {
    if Applicable(db, input) {
      FoldKeepsTables(db.events, db.bindings, db.markets, db.opportunities, db.episodes, input.winner, input.loser);
    }
  }

  // Every reference still resolves; each applied fold took one event, none came; no fold applies again.
  lemma {:induction false} FoldAllKeeps(db: Database, inputs: seq<MergeInput>)
    requires db.Valid()
    ensures FoldAll(db, inputs).Valid() && FoldAll(db, inputs).events <= db.events
    ensures |FoldAll(db, inputs).events| == |db.events| - Count(WithStatus(Applied), OutcomesOf(db, inputs, false))
    ensures forall i :: 0 <= i < |inputs| ==> !Applicable(FoldAll(db, inputs), inputs[i])
  {
    if |inputs| > 0 {
      var n := |inputs| - 1;
      FoldAllKeeps(db, inputs[..n]);
      FoldOnceKeeps(FoldAll(db, inputs[..n]), inputs[n]);
      var last := OutcomeOf(FoldAll(db, inputs[..n]), inputs[n], false);
      CountSnoc(WithStatus(Applied), OutcomesOf(db, inputs[..n], false), last);
      assert forall i :: 0 <= i < n ==> inputs[..n][i] == inputs[i];
    }
  }

  lemma {:induction false} NoneApply(db: Database, inputs: seq<MergeInput>)
    requires forall i :: 0 <= i < |inputs| ==> !Applicable(db, inputs[i])
    ensures FoldAll(db, inputs) == db
    ensures forall i :: 0 <= i < |inputs| ==> OutcomesOf(db, inputs, false)[i] == MergeOutcome(inputs[i], Failed, ZERO_MOVES)
  {
    if |inputs| > 0 {
      assert forall i :: 0 <= i < |inputs| - 1 ==> inputs[..|inputs| - 1][i] == inputs[i];
      NoneApply(db, inputs[..|inputs| - 1]);
    }
  }

  // Running the same plan again changes nothing, and every fold of it fails.
  lemma AgainChangesNothing(db: Database, inputs: seq<MergeInput>)
    requires db.Valid()
    ensures var after := FoldAll(db, inputs);
            && FoldAll(after, inputs) == after
            && forall i :: 0 <= i < |inputs| ==> OutcomesOf(after, inputs, false)[i] == MergeOutcome(inputs[i], Failed, ZERO_MOVES)
  {
    FoldAllKeeps(db, inputs);
    NoneApply(FoldAll(db, inputs), inputs);
  }
}
