// What one fold does to every row of the tables.

module EventMergeMeans {
  import opened Lines
  import opened Sequences
  import opened EventMerge

  // The loser's rows go to the winner, and all others stay as they are.
  ghost predicate OwnersMoved<K(!new)>(before: map<K, string>, after: map<K, string>, winner: string, loser: string) {
    && before.Keys == after.Keys
    && forall k :: k in before ==> after[k] == if before[k] == loser then winner else before[k]
  }

  // An episode of the loser that the winner has too.
  ghost predicate Collides(rows: map<string, Episode>, winner: string, loser: string, id: string) {
    id in rows && rows[id].eventId == loser && exists k :: Same(rows, winner, id, k)
  }

  ghost predicate Same(rows: map<string, Episode>, winner: string, id: string, k: string)
    requires id in rows
  {
    k in rows && rows[k] == rows[id].(eventId := winner)
  }

  // A colliding episode goes, the loser's others go to the winner, and all others stay as they are.
  ghost predicate EpisodesMoved(before: map<string, Episode>, after: map<string, Episode>, winner: string, loser: string) {
    && (forall id :: id in after <==> id in before && !Collides(before, winner, loser, id))
    && forall id :: id in after ==>
         after[id] == if before[id].eventId == loser then before[id].(eventId := winner) else before[id]
  }

  // Opportunities go with their event, and from a colliding episode to the winner's equal one.
  ghost predicate OpportunitiesMoved(before: map<string, Opportunity>, after: map<string, Opportunity>,
      rows: map<string, Episode>, winner: string, loser: string)
  {
    && before.Keys == after.Keys
    && forall k :: k in before ==>
         && after[k].eventId == (if before[k].eventId == loser then winner else before[k].eventId)
         && match before[k].episodeId
            case None => after[k].episodeId.None?
            case Some(id) =>
              if Collides(rows, winner, loser, id) then after[k].episodeId.Some? && Same(rows, winner, id, after[k].episodeId.value)
              else after[k].episodeId == Some(id)
  }

  // How many rows of each table were the loser's.
  ghost predicate CountsOf(db: Database, loser: string, moved: MoveCounts) {
    && moved.bindings == |set k | k in db.bindings && db.bindings[k] == loser|
    && moved.markets == |set k | k in db.markets && db.markets[k] == loser|
    && moved.opportunities == |set k | k in db.opportunities && db.opportunities[k].eventId == loser|
    && moved.episodes == |set k | k in db.episodes && db.episodes[k].eventId == loser|
  }

  ghost predicate FoldsRows(db: Database, after: Database, winner: string, loser: string) {
    && after.events == db.events - {loser}
    && OwnersMoved(db.bindings, after.bindings, winner, loser) && OwnersMoved(db.markets, after.markets, winner, loser)
    && EpisodesMoved(db.episodes, after.episodes, winner, loser)
    && OpportunitiesMoved(db.opportunities, after.opportunities, db.episodes, winner, loser)
  }

  lemma TwinMeans(rows: map<string, Episode>, winner: string, loser: string, id: string)
    requires id in rows && rows[id].eventId == loser && winner != loser
    ensures Collides(rows, winner, loser, id) <==> Twin(rows, winner, id) != id
    ensures Twin(rows, winner, id) != id ==> Same(rows, winner, id, Twin(rows, winner, id))
  {
    forall k | Same(rows, winner, id, k) ensures Twin(rows, winner, id) != id {
      assert k in rows && rows[k].eventId == winner && SameStructure(rows[k], rows[id]);
    }
    var twin := Twin(rows, winner, id);
    assert twin != id ==> Same(rows, winner, id, twin);
  }

  lemma EpisodesMove(rows: map<string, Episode>, winner: string, loser: string)
    requires winner != loser
    ensures EpisodesMoved(rows, MovedEpisodes(rows, winner, EpisodesOf(rows, loser)), winner, loser)
  {
    forall id | id in rows && rows[id].eventId == loser
      ensures Collides(rows, winner, loser, id) <==> Twin(rows, winner, id) != id
    {
      TwinMeans(rows, winner, loser, id);
    }
  }

  lemma OpportunitiesMove(opps: map<string, Opportunity>, rows: map<string, Episode>, winner: string, loser: string)
    requires winner != loser
    ensures OpportunitiesMoved(opps, MovedOpportunities(RepointOpportunities(opps, loser, winner), rows, winner, EpisodesOf(rows, loser)),
                               rows, winner, loser)
  {
    forall id | id in rows && rows[id].eventId == loser
      ensures Collides(rows, winner, loser, id) <==> Twin(rows, winner, id) != id
      ensures Twin(rows, winner, id) != id ==> Same(rows, winner, id, Twin(rows, winner, id))
    {
      TwinMeans(rows, winner, loser, id);
    }
  }

  // A fold of two different events that are there is applied to every row of every table and counts the loser's;
  // any other fold fails and leaves the tables alone.
  lemma FoldMeans(db: Database, input: MergeInput)
    ensures var (after, outcome) := (FoldOnce(db, input), OutcomeOf(db, input, false));
            if input.winner in db.events && input.loser in db.events && input.winner != input.loser then
              && FoldsRows(db, after, input.winner, input.loser)
              && outcome.status == Applied && CountsOf(db, input.loser, outcome.moved)
            else after == db && outcome.status == Failed && outcome.moved == MoveCounts(0, 0, 0, 0)
  {
    if Applicable(db, input) {
      EpisodesMove(db.episodes, input.winner, input.loser);
      OpportunitiesMove(db.opportunities, db.episodes, input.winner, input.loser);
      CountsAre(db, input.loser);
    }
  }

  lemma CountsAre(db: Database, loser: string)
    ensures CountsOf(db, loser, ChildrenOf(db, loser))
  {
    assert RowsOf(db.bindings, loser) == set k | k in db.bindings && db.bindings[k] == loser;
    assert RowsOf(db.markets, loser) == set k | k in db.markets && db.markets[k] == loser;
    assert OpportunitiesOf(db.opportunities, loser) == set k | k in db.opportunities && db.opportunities[k].eventId == loser;
    assert EpisodesOf(db.episodes, loser) == set k | k in db.episodes && db.episodes[k].eventId == loser;
  }

  // A dry run only counts, for every loser that is there.
  lemma DryRunMeans(db: Database, input: MergeInput)
    ensures var outcome := OutcomeOf(db, input, true);
            if input.loser in db.events then outcome.status == Planned && CountsOf(db, input.loser, outcome.moved)
            else outcome.status == Failed && outcome.moved == MoveCounts(0, 0, 0, 0)
  {
    CountsAre(db, input.loser);
  }
}
