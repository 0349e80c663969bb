// What every sequence of registrations keeps, and what one registration means.

module RegistryTheorems {
  import opened Lines
  import opened Sequences
  import opened Tables
  import opened Matching
  import opened Registry
  import EventPlan

  // ---------------------------------------------------------------- keys

  lemma {:induction false} ColonAt(s: string, t: string)
    requires ':' !in s
    ensures IndexOf(s + ":" + t, ':') == |s|
  {
    var all := s + ":" + t;
    var i := IndexOf(all, ':');
    assert all[|s|] == ':';
    assert forall k :: 0 <= k < |s| ==> all[k] == s[k];
  }

  // A key splits back into its parts exactly when the provider has no colon.
  lemma KeySplitsBack(provider: string, sourceEventId: string)
    ensures SplitKey(Key(provider, sourceEventId)) == (provider, sourceEventId) <==> ':' !in provider
  {
    var key := Key(provider, sourceEventId);
    if ':' !in provider {
      ColonAt(provider, sourceEventId);
      assert key[..|provider|] == provider && key[|provider| + 1..] == sourceEventId;
    } else {
      var k :| 0 <= k < |provider| && provider[k] == ':';
      assert key[k] == ':';
      var i := IndexOf(key, ':');
      assert i <= k;
      assert |key[..i]| < |provider|;
    }
  }

  // Two provider events share a key only if they are the same, provided their providers have no colon.
  lemma KeysAreUnique(a: Source, b: Source)
    requires KeyOf(a) == KeyOf(b) && ':' !in a.provider && ':' !in b.provider
    ensures a == b
  {
    KeySplitsBack(a.provider, a.sourceEventId);
    KeySplitsBack(b.provider, b.sourceEventId);
  }

  // One key is one source's alone exactly when its only colon is the one that joins its parts.
  lemma KeyIsItsOwn(a: Source)
    ensures (forall b :: KeyOf(b) == KeyOf(a) ==> b == a) <==> ':' !in a.provider && ':' !in a.sourceEventId
  {
    var key := KeyOf(a);
    if ':' in a.provider {
      var k :| 0 <= k < |a.provider| && a.provider[k] == ':';
      SplitElsewhere(a, k);
    } else if ':' in a.sourceEventId {
      var k :| 0 <= k < |a.sourceEventId| && a.sourceEventId[k] == ':';
      SplitElsewhere(a, |a.provider| + 1 + k);
    } else {
      forall b | KeyOf(b) == key ensures b == a {
        OnlyColon(a, b);
      }
    }
  }

  lemma SplitElsewhere(a: Source, k: nat)
    requires k < |KeyOf(a)| && KeyOf(a)[k] == ':' && k != |a.provider|
    ensures exists b :: KeyOf(b) == KeyOf(a) && b != a
  {
    var key := KeyOf(a);
    var b := EventPlan.Source(key[..k], key[k + 1..]);
    assert KeyOf(b) == key[..k] + ":" + key[k + 1..] == key;
    assert |b.provider| != |a.provider|;
  }

  lemma ColonElsewhere(a: Source, k: nat)
    requires ':' !in a.provider && ':' !in a.sourceEventId && k < |KeyOf(a)| && k != |a.provider|
    ensures KeyOf(a)[k] != ':'
  {
    if k < |a.provider| {
      assert KeyOf(a)[k] == a.provider[k];
    } else {
      assert KeyOf(a)[k] == a.sourceEventId[k - |a.provider| - 1];
    }
  }

  lemma OnlyColon(a: Source, b: Source)
    requires KeyOf(b) == KeyOf(a) && ':' !in a.provider && ':' !in a.sourceEventId
    ensures b == a
  {
    var n := |a.provider|;
    assert KeyOf(b)[|b.provider|] == ':';
    assert |b.provider| == n by {
      if |b.provider| != n {
        ColonElsewhere(a, |b.provider|);
      }
    }
    assert KeyOf(a)[..n] == a.provider && KeyOf(a)[n + 1..] == a.sourceEventId;
    assert KeyOf(b)[..n] == b.provider && KeyOf(b)[n + 1..] == b.sourceEventId;
  }

  // ---------------------------------------------------------------- the invariant

  ghost predicate Carries(sources: seq<Source>, key: string) {
    exists i :: 0 <= i < |sources| && KeyOf(sources[i]) == key
  }

  ghost predicate HasKey(e: Canonical, key: string) {
    Carries(e.sources, key)
  }

  lemma CarriesSnoc(sources: seq<Source>, source: Source, key: string)
    ensures Carries(sources + [source], key) <==> Carries(sources, key) || KeyOf(source) == key
  {
    var more := sources + [source];
    assert more[|sources|] == source;
    if Carries(sources, key) {
      var i :| 0 <= i < |sources| && KeyOf(sources[i]) == key;
      assert more[i] == sources[i];
    }
  }

  // The stored event of this id lists the key among its sources.
  ghost predicate Binds(stored: Table<string, Canonical>, key: string, id: string) {
    Get(stored, id).Some? && HasKey(Get(stored, id).value, key)
  }

  ghost predicate Filed(stored: Table<string, Canonical>) {
    OneEach(stored) && forall i :: 0 <= i < |stored| ==> stored[i].key == stored[i].value.id
  }

  // The index is the union of the stored events' bindings; a key has one event.
  ghost predicate Indexed(s: State) {
    forall key, id :: Get(s.index, key) == Some(id) <==> Binds(s.stored, key, id)
  }

  // A stored id that looks like a key is a bound key.
  ghost predicate IdsBound(s: State) {
    forall id :: Get(s.stored, id).Some? && ':' in id ==> Get(s.index, id).Some?
  }

  ghost predicate Consistent(s: State) {
    Filed(s.stored) && OneEach(s.index) && Indexed(s) && IdsBound(s)
  }

  lemma {:induction false} BestMeans(assess: Assess, probe: Ref, stored: Table<string, Canonical>)
    ensures Best(assess, probe, stored).Some? <==> |stored| > 0
    ensures Best(assess, probe, stored).Some? ==>
              var best := Best(assess, probe, stored).value;
              && best.assessment == assess(probe, RefOf(best.event))
              && (exists i :: 0 <= i < |stored| && stored[i].value == best.event)
              && (forall i :: 0 <= i < |stored| ==> assess(probe, RefOf(stored[i].value)).score <= best.assessment.score)
  {
    if |stored| > 0 {
      var n := |stored| - 1;
      BestMeans(assess, probe, stored[..n]);
      assert forall i :: 0 <= i < n ==> stored[..n][i] == stored[i];
    }
  }

  // Storing an event under a key and binding that key to it.
  function Stored(s: State, event: Canonical, key: string): State {
    State(Put(s.stored, event.id, event), Put(s.index, key, event.id))
  }

  lemma PutFiled(stored: Table<string, Canonical>, event: Canonical)
    requires Filed(stored)
    ensures Filed(Put(stored, event.id, event))
  {
    PutKeepsOneEach(stored, event.id, event);
    var after := Put(stored, event.id, event);
    forall i | 0 <= i < |after| ensures after[i].key == after[i].value.id {
      GetAt(after, i);
      PutGet(stored, event.id, event, after[i].key);
      if after[i].key != event.id {
        FiledGet(stored, after[i].key);
      }
    }
  }

  lemma {:induction false} FiledGet(stored: Table<string, Canonical>, id: string)
    requires Filed(stored) && Get(stored, id).Some?
    ensures Get(stored, id).value.id == id
  {
    GetMeans(stored, id);
    var i :| 0 <= i < |stored| && stored[i].key == id;
    GetAt(stored, i);
  }

  // An event that has its old keys and one new one keeps the index the union of the bindings.
  lemma StoredIndexed(s: State, event: Canonical, key: string)
    requires Indexed(s) && Get(s.index, key) == None
    requires forall k :: HasKey(event, k) <==> k == key || Binds(s.stored, k, event.id)
    ensures Indexed(Stored(s, event, key))
  {
    var after := Stored(s, event, key);
    forall k, id ensures Get(after.index, k) == Some(id) <==> Binds(after.stored, k, id) {
      PutGet(s.index, key, event.id, k);
      PutGet(s.stored, event.id, event, id);
      assert Get(s.index, k) == Some(id) <==> Binds(s.stored, k, id);
    }
  }

  lemma StoredKeepsIds(s: State, event: Canonical, key: string)
    requires IdsBound(s) && (':' in event.id ==> event.id == key || Get(s.index, event.id).Some?)
    ensures IdsBound(Stored(s, event, key))
  {
    var after := Stored(s, event, key);
    forall id | Get(after.stored, id).Some? && ':' in id ensures Get(after.index, id).Some? {
      PutGet(s.stored, event.id, event, id);
      PutGet(s.index, key, event.id, id);
    }
  }

  lemma StoredConsistent(s: State, event: Canonical, key: string)
    requires Consistent(s) && Get(s.index, key) == None
    requires forall k :: HasKey(event, k) <==> k == key || Binds(s.stored, k, event.id)
    requires ':' in event.id ==> event.id == key || Get(s.index, event.id).Some?
    ensures Consistent(Stored(s, event, key))
  {
    PutFiled(s.stored, event);
    PutKeepsOneEach(s.index, key, event.id);
    StoredIndexed(s, event, key);
    StoredKeepsIds(s, event, key);
  }

  lemma KeyHasColon(input: Incoming)
    ensures ':' in KeyFor(input)
  {
    assert KeyFor(input)[|input.provider|] == ':';
  }

  lemma CreateKeeps(setup: Setup, s: State, input: Incoming)
    requires Consistent(s) && Get(s.index, KeyFor(input)) == None
    ensures Consistent(Create(setup, s, input).state)
    ensures Get(s.stored, KeyFor(input)) == None
  {
    var key, event := KeyFor(input), NewEvent(setup, input);
    KeyHasColon(input);
    assert Get(s.stored, key) == None;
    forall k ensures HasKey(event, k) <==> k == key || Binds(s.stored, k, event.id) {
      assert event.sources[0] == SourceFor(input);
    }
    StoredConsistent(s, event, key);
  }

  lemma MergeKeeps(s: State, input: Incoming, target: Canonical, score: real)
    requires Consistent(s) && Get(s.index, KeyFor(input)) == None && Get(s.stored, target.id) == Some(target)
    ensures Consistent(Merge(s, input, target, score).state)
  {
    var key, event := KeyFor(input), target.(sources := target.sources + [SourceFor(input)]);
    forall k ensures HasKey(event, k) <==> k == key || Binds(s.stored, k, event.id) {
      CarriesSnoc(target.sources, SourceFor(input), k);
    }
    StoredConsistent(s, event, key);
  }

  lemma BestIsStored(setup: Setup, s: State, input: Incoming)
    requires Filed(s.stored) && Best(setup.assess, Probe(input), s.stored).Some?
    ensures var e := Best(setup.assess, Probe(input), s.stored).value.event; Get(s.stored, e.id) == Some(e)
  {
    BestMeans(setup.assess, Probe(input), s.stored);
    var e := Best(setup.assess, Probe(input), s.stored).value.event;
    var i :| 0 <= i < |s.stored| && s.stored[i].value == e;
    GetAt(s.stored, i);
  }

  // Registering keeps the index the union of the stored events' bindings.
  lemma RegisterKeeps(setup: Setup, s: State, input: Incoming)
    requires Consistent(s)
    ensures Consistent(Register(setup, s, input).state)
  {
    if Get(s.index, KeyFor(input)) == None {
      CreateKeeps(setup, s, input);
      var best := Best(setup.assess, Probe(input), s.stored);
      if best.Some? {
        BestIsStored(setup, s, input);
        MergeKeeps(s, input, best.value.event, best.value.assessment.score);
      }
    }
  }

  // ---------------------------------------------------------------- what one registration means

  // An event that held a key still holds it, and no event disappears.
  ghost predicate Extends(before: State, after: State) {
    && (forall key, id :: Get(before.index, key) == Some(id) ==> Get(after.index, key) == Some(id))
    && (forall id :: Get(before.stored, id).Some? ==>
          Get(after.stored, id).Some? && Get(before.stored, id).value.sources <= Get(after.stored, id).value.sources)
  }

  lemma StoredExtends(s: State, event: Canonical, key: string)
    requires Get(s.index, key) == None
    requires Get(s.stored, event.id).Some? ==> Get(s.stored, event.id).value.sources <= event.sources
    ensures Extends(s, Stored(s, event, key))
  {
    var after := Stored(s, event, key);
    forall k, id | Get(s.index, k) == Some(id) ensures Get(after.index, k) == Some(id) {
      PutGet(s.index, key, event.id, k);
    }
    forall id | Get(s.stored, id).Some?
      ensures Get(after.stored, id).Some? && Get(s.stored, id).value.sources <= Get(after.stored, id).value.sources
    {
      PutGet(s.stored, event.id, event, id);
    }
  }

  lemma CreateExtends(setup: Setup, s: State, input: Incoming)
    requires Consistent(s) && Get(s.index, KeyFor(input)) == None
    ensures Extends(s, Create(setup, s, input).state)
  {
    CreateKeeps(setup, s, input);
    StoredExtends(s, NewEvent(setup, input), KeyFor(input));
  }

  lemma MergeExtends(s: State, input: Incoming, target: Canonical, score: real)
    requires Consistent(s) && Get(s.index, KeyFor(input)) == None && Get(s.stored, target.id) == Some(target)
    ensures Extends(s, Merge(s, input, target, score).state)
  {
    StoredExtends(s, target.(sources := target.sources + [SourceFor(input)]), KeyFor(input));
  }

  // What was bound stays bound; what was stored stays stored and only gains sources; and nothing at all
  // changes unless an event is created or merged.
  lemma RegisterExtends(setup: Setup, s: State, input: Incoming)
    requires Consistent(s)
    ensures Extends(s, Register(setup, s, input).state)
    ensures Register(setup, s, input).result.action in {Uncertain, Threw} ==> Register(setup, s, input).state == s
  {
    if Get(s.index, KeyFor(input)) == None {
      CreateExtends(setup, s, input);
      var best := Best(setup.assess, Probe(input), s.stored);
      if best.Some? {
        BestIsStored(setup, s, input);
        MergeExtends(s, input, best.value.event, best.value.assessment.score);
      }
    }
  }

  lemma SourceHasKey(e: Canonical, source: Source)
    requires source in e.sources
    ensures HasKey(e, KeyOf(source))
  {
  }

  // A key that is not bound is in no stored event.
  lemma NotInStored(s: State, input: Incoming, target: Canonical)
    requires Consistent(s) && Get(s.index, KeyFor(input)) == None && Get(s.stored, target.id) == Some(target)
    ensures SourceFor(input) !in target.sources
  {
    assert !Binds(s.stored, KeyFor(input), target.id);
    if SourceFor(input) in target.sources {
      SourceHasKey(target, SourceFor(input));
    }
  }

  ghost predicate BoundAndStored(key: string, r: Outcome) {
    && r.result.event.Some?
    && Get(r.state.index, key) == Some(r.result.event.value.id)
    && Get(r.state.stored, r.result.event.value.id) == r.result.event
  }

  lemma StoredBinds(s: State, event: Canonical, key: string, result: Result)
    requires result.event == Some(event)
    ensures BoundAndStored(key, Outcome(Stored(s, event, key), result))
  {
    PutGet(s.index, key, event.id, key);
    PutGet(s.stored, event.id, event, event.id);
  }

  lemma DuplicateBinds(s: State, key: string, id: string)
    requires Consistent(s) && Get(s.index, key) == Some(id)
    ensures Get(s.stored, id).Some? && Get(s.stored, id).value.id == id
  {
    assert Binds(s.stored, key, id);
    FiledGet(s.stored, id);
  }

  // After a creation or a merge the key is bound to the event returned, and that event is stored.
  lemma RegisterBinds(setup: Setup, s: State, input: Incoming)
    requires Consistent(s)
    ensures Register(setup, s, input).result.action in {Created, Merged} ==>
              BoundAndStored(KeyFor(input), Register(setup, s, input))
  {
    var key := KeyFor(input);
    match Get(s.index, key)
    case Some(id) => DuplicateBinds(s, key, id);
    case None =>
      StoredBinds(s, NewEvent(setup, input), key, Result(Created, Some(NewEvent(setup, input)), 1.0));
      var best := Best(setup.assess, Probe(input), s.stored);
      if best.Some? {
        BestIsStored(setup, s, input);
        var target := best.value.event;
        NotInStored(s, input, target);
        var event := target.(sources := target.sources + [SourceFor(input)]);
        StoredBinds(s, event, key, Result(Merged, Some(event), best.value.assessment.score));
      }
  }

  // Registering a provider event again finds the same event and changes nothing.
  lemma RegisterAgain(setup: Setup, s: State, input: Incoming)
    requires Consistent(s) && Register(setup, s, input).result.action in {Created, Merged}
    ensures var first := Register(setup, s, input);
            Register(setup, first.state, input) == Outcome(first.state, Result(Merged, first.result.event, 1.0))
  {
    RegisterBinds(setup, s, input);
  }

  ghost predicate NoneConfirmed(setup: Setup, s: State, input: Incoming) {
    forall i :: 0 <= i < |s.stored| ==>
      Classify(setup.assess(Probe(input), RefOf(s.stored[i].value)), setup.policy) != Confirmed
  }

  // A provider event not seen before is merged only into an event that is confirmed and scores highest, and
  // created only if no stored event is confirmed.
  lemma OnlyConfirmedMerge(setup: Setup, s: State, input: Incoming)
    requires Consistent(s) && Get(s.index, KeyFor(input)) == None
    ensures var (action, best) := (Register(setup, s, input).result.action, Best(setup.assess, Probe(input), s.stored));
            && (action == Merged ==> best.Some? && Classify(best.value.assessment, setup.policy) == Confirmed)
            && (action == Created ==> NoneConfirmed(setup, s, input))
            && (action == Merged ==> !NoneConfirmed(setup, s, input))
  {
    BestMeans(setup.assess, Probe(input), s.stored);
  }

  // ---------------------------------------------------------------- near matches

  // Events are assessed by their weighted confidence, names folded in any way.
  ghost predicate Weighs(setup: Setup, team: Fold, competition: Fold) {
    forall a, b :: setup.assess(a, b) == Confidence(a, b, team, competition, setup.policy)
  }

  function AssessmentOf(setup: Setup, input: Incoming, e: Canonical): Assessment {
    setup.assess(Probe(input), RefOf(e))
  }

  // The same teams, in either order where the policy allows it.
  predicate SameTeams(a: Assessment) {
    a.signals.teams || a.signals.reverseTeams
  }

  ghost predicate SomeNear(setup: Setup, s: State, input: Incoming) {
    exists i :: 0 <= i < |s.stored| && SameTeams(AssessmentOf(setup, input, s.stored[i].value))
  }

  // The same teams, and the start time or the competition.
  ghost predicate Nearby(setup: Setup, input: Incoming, e: Canonical) {
    var a := AssessmentOf(setup, input, e);
    SameTeams(a) && (a.signals.startTime || a.signals.competition)
  }

  // The start time and the competition, whoever plays.
  ghost predicate SameSlot(setup: Setup, input: Incoming, e: Canonical) {
    var a := AssessmentOf(setup, input, e);
    a.signals.startTime && a.signals.competition
  }

  ghost predicate Noticed(setup: Setup, s: State, input: Incoming) {
    && SomeNear(setup, s, input)
    && ((exists i :: 0 <= i < |s.stored| && Nearby(setup, input, s.stored[i].value))
        || (forall i :: 0 <= i < |s.stored| ==> !SameSlot(setup, input, s.stored[i].value)))
  }

  function Weighed(a: Assessment): real {
    (if SameTeams(a) then 0.5 else 0.0) + (if a.signals.startTime then 0.3 else 0.0) + (if a.signals.competition then 0.2 else -0.2)
  }

  lemma WeighedScore(a: Ref, b: Ref, team: Fold, competition: Fold, policy: Policy)
    requires BothNamed(a, b)
    ensures Confidence(a, b, team, competition, policy).score == Weighed(Confidence(a, b, team, competition, policy))
  {
    var same := CompetitionsEqual(a, b, competition);
    ScoreStays(TeamsEqual(a, b, team) || TeamsReversed(a, b, team, policy), StartsWithin(a, b, policy.startTimeToleranceMs), same, !same);
  }

  lemma AssessedScore(setup: Setup, input: Incoming, e: Canonical, team: Fold, competition: Fold)
    requires Weighs(setup, team, competition)
    ensures AssessmentOf(setup, input, e).score == Weighed(AssessmentOf(setup, input, e))
  {
    WeighedScore(Probe(input), RefOf(e), team, competition, setup.policy);
  }

  // The best candidate has the same teams exactly when a near match is noticed.
  lemma BestIsNear(setup: Setup, s: State, input: Incoming, team: Fold, competition: Fold, best: Candidate)
    requires Weighs(setup, team, competition) && Best(setup.assess, Probe(input), s.stored) == Some(best)
    ensures SameTeams(best.assessment) <==> Noticed(setup, s, input)
  {
    BestMeans(setup.assess, Probe(input), s.stored);
    AssessedScore(setup, input, best.event, team, competition);
    var k :| 0 <= k < |s.stored| && s.stored[k].value == best.event;
    forall i | 0 <= i < |s.stored|
      ensures var r := AssessmentOf(setup, input, s.stored[i].value);
              r.score <= best.assessment.score && r.score == Weighed(r)
    {
      AssessedScore(setup, input, s.stored[i].value, team, competition);
    }
    assert SameTeams(best.assessment) ==> SomeNear(setup, s, input);
    assert SameTeams(best.assessment) && !Nearby(setup, input, s.stored[k].value) ==> best.assessment.score == 0.3;
  }

  // A provider event not seen before is merged into the best candidate when some stored event is confirmed, held
  // exactly when none is and a near match is noticed (or its own two teams resolve to one), and created otherwise.
  lemma NearMatchNoticedExactlyWhen(setup: Setup, s: State, input: Incoming, team: Fold, competition: Fold)
    requires Weighs(setup, team, competition) && Get(s.index, KeyFor(input)) == None
    ensures var (r, best) := (Register(setup, s, input), Best(setup.assess, Probe(input), s.stored));
            if !NoneConfirmed(setup, s, input)
            then best.Some? && r == Merge(s, input, best.value.event, best.value.assessment.score)
            else
              && (r.result == HELD <==> Noticed(setup, s, input) || setup.team(input.homeTeam) == setup.team(input.awayTeam))
              && r == if Noticed(setup, s, input) then Outcome(s, HELD) else Create(setup, s, input)
  {
    var best := Best(setup.assess, Probe(input), s.stored);
    BestMeans(setup.assess, Probe(input), s.stored);
    if best.Some? {
      BestIsNear(setup, s, input, team, competition, best.value);
    }
  }

  // ---------------------------------------------------------------- a near match that goes unnoticed

  // Resolving a name a second time changes nothing.
  ghost predicate Resolves(resolve: Fold, fold: Fold) {
    forall name :: fold(resolve(name)) == fold(name)
  }

  predicate SameSides(a: Incoming, b: Incoming, team: Fold, policy: Policy) {
    TeamsEqual(Probe(a), Probe(b), team) || TeamsReversed(Probe(a), Probe(b), team, policy)
  }

  predicate SameStart(a: Incoming, b: Incoming, policy: Policy) {
    StartsWithin(Probe(a), Probe(b), policy.startTimeToleranceMs)
  }

  predicate SameCompetition(a: Incoming, b: Incoming, competition: Fold) {
    competition(a.competition) == competition(b.competition)
  }

  // What one input scores against the event another one created.
  lemma AgainstCreated(setup: Setup, team: Fold, competition: Fold, probe: Incoming, from: Incoming)
    requires Weighs(setup, team, competition) && Resolves(setup.team, team) && Resolves(setup.competition, competition)
    requires KeyFor(probe) != KeyFor(from)
    ensures var r := AssessmentOf(setup, probe, NewEvent(setup, from));
            && (SameTeams(r) <==> SameSides(probe, from, team, setup.policy))
            && (r.signals.startTime <==> SameStart(probe, from, setup.policy))
            && (r.signals.competition <==> SameCompetition(probe, from, competition))
            && r.score == Weighed(r)
  {
    AssessedScore(setup, probe, NewEvent(setup, from), team, competition);
  }

  function EntryFor(setup: Setup, input: Incoming): Entry<string, Canonical> {
    Entry(KeyFor(input), NewEvent(setup, input))
  }

  // The state after a near match and a stranger were created, in this order.
  function Both(setup: Setup, near: Incoming, stranger: Incoming): State {
    State([EntryFor(setup, near), EntryFor(setup, stranger)],
          [Entry(KeyFor(near), KeyFor(near)), Entry(KeyFor(stranger), KeyFor(stranger))])
  }

  // The near match has the input's teams, at another time in another competition; the stranger has other teams at
  // its time in its competition.
  ghost predicate Beside(setup: Setup, team: Fold, competition: Fold, near: Incoming, stranger: Incoming, input: Incoming) {
    && SameSides(input, near, team, setup.policy) && !SameStart(input, near, setup.policy)
    && !SameCompetition(input, near, competition)
    && !SameSides(input, stranger, team, setup.policy) && SameStart(input, stranger, setup.policy)
    && SameCompetition(input, stranger, competition)
    && KeyFor(near) != KeyFor(stranger) && KeyFor(near) != KeyFor(input) && KeyFor(stranger) != KeyFor(input)
    && Parses(NewEvent(setup, near)) && Parses(NewEvent(setup, stranger)) && Parses(NewEvent(setup, input))
  }

  lemma FirstIsCreated(setup: Setup, near: Incoming)
    requires Parses(NewEvent(setup, near))
    ensures Register(setup, State([], []), near).state
         == State([EntryFor(setup, near)], [Entry(KeyFor(near), KeyFor(near))])
  {
  }

  lemma BestOfOne(assess: Assess, probe: Ref, e: Entry<string, Canonical>)
    ensures Best(assess, probe, [e]) == Some(Candidate(e.value, assess(probe, RefOf(e.value))))
  {
    assert Best(assess, probe, [e][..0]) == None;
  }

  // Next to one event of other teams an input is created.
  lemma SecondIsCreated(setup: Setup, s: State, first: Incoming, input: Incoming)
    requires s == State([EntryFor(setup, first)], [Entry(KeyFor(first), KeyFor(first))])
    requires KeyFor(input) != KeyFor(first) && Parses(NewEvent(setup, input))
    requires Classify(AssessmentOf(setup, input, NewEvent(setup, first)), setup.policy) == NoMatch
    ensures Register(setup, s, input).state == Both(setup, first, input)
  {
    BestOfOne(setup.assess, Probe(input), EntryFor(setup, first));
    GetSnoc([], s.index[0], KeyFor(input));
    GetSnoc([], s.stored[0], KeyFor(input));
    assert [] + [s.index[0]] == s.index && [] + [s.stored[0]] == s.stored;
    assert Register(setup, s, input) == Create(setup, s, input);
  }

  lemma StrangerIsNoMatch(setup: Setup, team: Fold, competition: Fold, near: Incoming, stranger: Incoming, input: Incoming)
    requires Weighs(setup, team, competition) && Resolves(setup.team, team) && Resolves(setup.competition, competition)
    requires setup.policy.confirmThreshold > 0.5 && Beside(setup, team, competition, near, stranger, input)
    ensures Classify(AssessmentOf(setup, stranger, NewEvent(setup, near)), setup.policy) == NoMatch
  {
    AgainstCreated(setup, team, competition, stranger, near);
  }

  // The input's own two assessments.
  ghost predicate Overlooks(setup: Setup, input: Incoming, near: Canonical, stranger: Canonical) {
    var (a, b) := (AssessmentOf(setup, input, near), AssessmentOf(setup, input, stranger));
    && SameTeams(a) && !a.signals.startTime && !a.signals.competition
    && !SameTeams(b) && b.signals.startTime && b.signals.competition
    && Classify(a, setup.policy) != Confirmed && Classify(b, setup.policy) != Confirmed
  }

  lemma InputOverlooks(setup: Setup, team: Fold, competition: Fold, near: Incoming, stranger: Incoming, input: Incoming)
    requires Weighs(setup, team, competition) && Resolves(setup.team, team) && Resolves(setup.competition, competition)
    requires setup.policy.confirmThreshold > 0.5 && Beside(setup, team, competition, near, stranger, input)
    ensures Overlooks(setup, input, NewEvent(setup, near), NewEvent(setup, stranger))
  {
    AgainstCreated(setup, team, competition, input, near);
    AgainstCreated(setup, team, competition, input, stranger);
  }

  lemma OverlookedInState(setup: Setup, s: State, input: Incoming, near: Canonical, stranger: Canonical)
    requires |s.stored| == 2 && s.stored[0].value == near && s.stored[1].value == stranger
    requires Overlooks(setup, input, near, stranger)
    ensures NoneConfirmed(setup, s, input) && SomeNear(setup, s, input) && !Noticed(setup, s, input)
  {
    assert SameSlot(setup, input, s.stored[1].value);
  }

  lemma TwoRegistered(setup: Setup, near: Incoming, stranger: Incoming)
    requires Parses(NewEvent(setup, near)) && Parses(NewEvent(setup, stranger)) && KeyFor(near) != KeyFor(stranger)
    requires Classify(AssessmentOf(setup, stranger, NewEvent(setup, near)), setup.policy) == NoMatch
    ensures RunFrom(setup, State([], []), [near, stranger]) == Both(setup, near, stranger)
  {
    FirstIsCreated(setup, near);
    SecondIsCreated(setup, State([EntryFor(setup, near)], [Entry(KeyFor(near), KeyFor(near))]), near, stranger);
    assert [near, stranger][..1] == [near] && [near][..0] == [];
    assert RunFrom(setup, State([], []), [near][..0]) == State([], []);
    assert RunFrom(setup, State([], []), [near]) == Register(setup, State([], []), near).state;
  }

  lemma NotAmongTwo(setup: Setup, near: Incoming, stranger: Incoming, key: string)
    requires key != KeyFor(near) && key != KeyFor(stranger)
    ensures Get(Both(setup, near, stranger).index, key) == None
  {
    var index := Both(setup, near, stranger).index;
    GetSnoc([], index[0], key);
    GetSnoc([index[0]], index[1], key);
    assert [] + [index[0]] == [index[0]] && [index[0]] + [index[1]] == index;
  }

  // Over a run of three registrations from nothing a near match goes unnoticed: the input is created although
  // a stored event has its two teams.
  lemma NearMatchMissed(setup: Setup, team: Fold, competition: Fold, near: Incoming, stranger: Incoming, input: Incoming)
    requires Weighs(setup, team, competition) && Resolves(setup.team, team) && Resolves(setup.competition, competition)
    requires setup.policy.confirmThreshold > 0.5 && Beside(setup, team, competition, near, stranger, input)
    ensures var s := RunFrom(setup, State([], []), [near, stranger]);
            && SomeNear(setup, s, input) && !Noticed(setup, s, input)
            && Register(setup, s, input).result.action == Created
  {
    var s := Both(setup, near, stranger);
    StrangerIsNoMatch(setup, team, competition, near, stranger, input);
    TwoRegistered(setup, near, stranger);
    InputOverlooks(setup, team, competition, near, stranger, input);
    OverlookedInState(setup, s, input, NewEvent(setup, near), NewEvent(setup, stranger));
    NotAmongTwo(setup, near, stranger, KeyFor(input));
    NearMatchNoticedExactlyWhen(setup, s, input, team, competition);
    CreatesParsed(setup, s, input);
  }

  lemma CreatesParsed(setup: Setup, s: State, input: Incoming)
    requires Parses(NewEvent(setup, input))
    ensures Create(setup, s, input).result.action == Created
  {
  }

  function Same(): Fold {
    (name: string) => name
  }

  // Names stand for themselves, and the policy is the default one.
  function PlainSetup(): Setup {
    Setup(Same(), Same(), (a: Ref, b: Ref) => Confidence(a, b, Same(), Same(), DEFAULT_POLICY), DEFAULT_POLICY)
  }

  // Such a run: two teams a day later in another competition, then two others at the input's time.
  lemma NearMatchMissedByDefault()
    ensures var (near, stranger) := (Incoming("p", "1", "A", "B", "Cup", Some(86400000)), Incoming("p", "2", "C", "D", "League", Some(0)));
            var input := Incoming("q", "1", "A", "B", "League", Some(0));
            var s := RunFrom(PlainSetup(), State([], []), [near, stranger]);
            && SomeNear(PlainSetup(), s, input) && Register(PlainSetup(), s, input).result.action == Created
  {
    DistinctKeysOf();
    NearMatchMissed(PlainSetup(), Same(), Same(), Incoming("p", "1", "A", "B", "Cup", Some(86400000)),
                    Incoming("p", "2", "C", "D", "League", Some(0)), Incoming("q", "1", "A", "B", "League", Some(0)));
  }

  lemma DistinctKeysOf()
    ensures Key("p", "1") != Key("p", "2") && Key("p", "1") != Key("q", "1") && Key("p", "2") != Key("q", "1")
  {
    assert Key("p", "1")[2] == '1' && Key("p", "2")[2] == '2' && Key("p", "1")[0] == 'p' && Key("q", "1")[0] == 'q';
    assert Key("p", "2")[0] == 'p';
  }

  // A new event takes the place of a stored one that has its key for an id; the index then stays the union
  // of the bindings exactly when the one replaced had none.
  lemma CreateOverwrites(s: State, event: Canonical, key: string)
    requires Filed(s.stored) && Indexed(s) && Get(s.index, key) == None
    requires event.id == key && |event.sources| == 1 && KeyOf(event.sources[0]) == key
    ensures Indexed(Stored(s, event, key)) <==> (Get(s.stored, key).Some? ==> Get(s.stored, key).value.sources == [])
  {
    if Get(s.stored, key).Some? && Get(s.stored, key).value.sources != [] {
      OverwritingLoses(s, event, key, Get(s.stored, key).value);
    } else {
      OverwritingKeeps(s, event, key);
    }
  }

  lemma OverwritingLoses(s: State, event: Canonical, key: string, was: Canonical)
    requires Indexed(s) && Get(s.index, key) == None && Get(s.stored, key) == Some(was) && was.sources != []
    requires event.id == key && event.sources != [] && forall k :: HasKey(event, k) ==> k == key
    ensures !Indexed(Stored(s, event, key))
  {
    var k := KeyOf(was.sources[0]);
    assert HasKey(was, k) && Binds(s.stored, k, key);
    assert Get(s.index, k) == Some(key);
    PutGet(s.index, key, event.id, k);
    PutGet(s.stored, key, event, key);
    assert Get(Stored(s, event, key).index, k) == Some(key) && !Binds(Stored(s, event, key).stored, k, key);
  }

  lemma OverwritingKeeps(s: State, event: Canonical, key: string)
    requires Indexed(s) && Get(s.index, key) == None && event.id == key
    requires Get(s.stored, key).Some? ==> Get(s.stored, key).value.sources == []
    requires |event.sources| == 1 && KeyOf(event.sources[0]) == key
    ensures Indexed(Stored(s, event, key))
  {
    assert HasKey(event, key);
    StoredIndexed(s, event, key);
  }

  // ---------------------------------------------------------------- runs

  function RunFrom(setup: Setup, s: State, inputs: seq<Incoming>): State {
    if |inputs| == 0 then s
    else Register(setup, RunFrom(setup, s, inputs[..|inputs| - 1]), inputs[|inputs| - 1]).state
  }

  // Over every sequence of registrations from a consistent state, each key has one event for ever.
  lemma {:induction false} RunKeeps(setup: Setup, s: State, inputs: seq<Incoming>)
    requires Consistent(s)
    ensures Consistent(RunFrom(setup, s, inputs)) && Extends(s, RunFrom(setup, s, inputs))
  {
    if |inputs| > 0 {
      var n := |inputs| - 1;
      var before := RunFrom(setup, s, inputs[..n]);
      RunKeeps(setup, s, inputs[..n]);
      RegisterKeeps(setup, before, inputs[n]);
      RegisterExtends(setup, before, inputs[n]);
      ExtendsOn(s, before, Register(setup, before, inputs[n]).state);
    }
  }

  lemma ExtendsOn(a: State, b: State, c: State)
    requires Extends(a, b) && Extends(b, c)
    ensures Extends(a, c)
  {
    forall id | Get(a.stored, id).Some?
      ensures Get(c.stored, id).Some? && Get(a.stored, id).value.sources <= Get(c.stored, id).value.sources
    {
      assert Get(b.stored, id).Some?;
    }
  }

  // ---------------------------------------------------------------- seeds

  ghost predicate Disjoint(events: seq<Canonical>) {
    && (forall i, j :: 0 <= i < j < |events| ==> events[i].id != events[j].id)
    && (forall i, j, key :: 0 <= i < j < |events| ==> !(HasKey(events[i], key) && HasKey(events[j], key)))
  }

  lemma {:induction false} BoundGet(index: Bindings, sources: seq<Source>, id: string, key: string)
    requires OneEach(index)
    ensures OneEach(Bound(index, sources, id))
    ensures Get(Bound(index, sources, id), key) == if Carries(sources, key) then Some(id) else Get(index, key)
  {
    if |sources| > 0 {
      var n := |sources| - 1;
      BoundGet(index, sources[..n], id, key);
      PutGet(Bound(index, sources[..n], id), KeyOf(sources[n]), id, key);
      PutKeepsOneEach(Bound(index, sources[..n], id), KeyOf(sources[n]), id);
      CarriesSnoc(sources[..n], sources[n], key);
      assert sources == sources[..n] + [sources[n]];
    }
  }

  ghost predicate SeedsBound(s: State, events: seq<Canonical>) {
    && Filed(s.stored) && OneEach(s.index) && Indexed(s)
    && (forall id :: Get(s.stored, id).Some? <==> exists i :: 0 <= i < |events| && events[i].id == id)
    && (forall i :: 0 <= i < |events| ==> Get(s.stored, events[i].id) == Some(events[i]))
  }

  // Seeds with ids and keys of their own make a consistent state, but for their ids.
  lemma {:induction false} SeedsIndexed(events: seq<Canonical>)
    requires Disjoint(events)
    ensures SeedsBound(Seeded(State([], []), events), events)
  {
    if |events| > 0 {
      var n := |events| - 1;
      var front, last := events[..n], events[n];
      assert forall i :: 0 <= i < n ==> front[i] == events[i];
      SeedsIndexed(front);
      SeedOneMore(Seeded(State([], []), front), front, last, events);
    }
  }

  lemma SeedOneMore(s: State, front: seq<Canonical>, last: Canonical, events: seq<Canonical>)
    requires events == front + [last] && Disjoint(events) && SeedsBound(s, front)
    ensures SeedsBound(State(Put(s.stored, last.id, last), Bound(s.index, last.sources, last.id)), events)
  {
    var after := State(Put(s.stored, last.id, last), Bound(s.index, last.sources, last.id));
    PutFiled(s.stored, last);
    BoundGet(s.index, last.sources, last.id, "");
    var n := |front|;
    assert forall i :: 0 <= i < n ==> events[i] == front[i];
    assert events[n] == last;
    forall key, id ensures Get(after.index, key) == Some(id) <==> Binds(after.stored, key, id) {
      BoundGet(s.index, last.sources, last.id, key);
      PutGet(s.stored, last.id, last, id);
      assert Get(s.index, key) == Some(id) <==> Binds(s.stored, key, id);
      if HasKey(last, key) && id != last.id && Get(s.stored, id).Some? {
        var i :| 0 <= i < n && front[i].id == id;
        assert !HasKey(events[i], key);
      }
    }
    forall id ensures Get(after.stored, id).Some? <==> exists i :: 0 <= i < |events| && events[i].id == id {
      PutGet(s.stored, last.id, last, id);
      if id != last.id && Get(s.stored, id).Some? {
        var i :| 0 <= i < n && front[i].id == id;
        assert events[i].id == id;
      }
    }
    forall i | 0 <= i < |events| ensures Get(after.stored, events[i].id) == Some(events[i]) {
      PutGet(s.stored, last.id, last, events[i].id);
    }
  }

  // An id that looks like a key is one of the seeds' keys.
  ghost predicate IdsAmongKeys(events: seq<Canonical>) {
    forall i :: 0 <= i < |events| && ':' in events[i].id ==>
      exists j :: 0 <= j < |events| && HasKey(events[j], events[i].id)
  }

  lemma SeedsConsistent(events: seq<Canonical>)
    requires Disjoint(events)
    ensures Consistent(Seeded(State([], []), events)) <==> IdsAmongKeys(events)
  {
    SeedsIndexed(events);
    var s := Seeded(State([], []), events);
    if IdsAmongKeys(events) {
      forall id | Get(s.stored, id).Some? && ':' in id ensures Get(s.index, id).Some? {
        var i :| 0 <= i < |events| && events[i].id == id;
        var j :| 0 <= j < |events| && HasKey(events[j], events[i].id);
        assert Binds(s.stored, id, events[j].id);
      }
    }
    if Consistent(s) {
      forall i | 0 <= i < |events| && ':' in events[i].id
        ensures exists j :: 0 <= j < |events| && HasKey(events[j], events[i].id)
      {
        var id := Get(s.index, events[i].id).value;
        assert Binds(s.stored, events[i].id, id);
        var j :| 0 <= j < |events| && events[j].id == id;
        assert HasKey(events[j], events[i].id);
      }
    }
  }
}
