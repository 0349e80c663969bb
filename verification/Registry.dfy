// The source-id index and the event normalizer: each provider event is created, merged or held.

module Registry {
  import opened Lines
  import opened Sequences
  import opened Tables
  import opened Matching
  import EventPlan

  type Source = EventPlan.Source

  // ---------------------------------------------------------------- source ids

  function Key(provider: string, sourceEventId: string): string {
    provider + ":" + sourceEventId
  }

  function KeyOf(s: Source): string {
    Key(s.provider, s.sourceEventId)
  }

  datatype Mapping = Mapping(provider: string, sourceEventId: string, canonicalEventId: string)

  type Bindings = Table<string, string>

  // The halves of a key around its first colon; without one, all but the last character and the whole.
  function SplitKey(key: string): (string, string) {
    var i := IndexOf(key, ':');
    if i < |key| then (key[..i], key[i + 1..])
    else (if |key| > 0 then key[..|key| - 1] else "", key)
  }

  function MappingOf(e: Entry<string, string>): Mapping {
    var (provider, sourceEventId) := SplitKey(e.key);
    Mapping(provider, sourceEventId, e.value)
  }

  function BoundTo(id: string): Entry<string, string> -> bool {
    (e: Entry<string, string>) => e.value == id
  }

  class SourceIdIndex {
    var entries: Bindings

    constructor ()
      ensures entries == []
    {
      entries := [];
    }

    method Register(provider: string, sourceEventId: string, canonicalEventId: string)
      modifies this
      ensures entries == Put(old(entries), Key(provider, sourceEventId), canonicalEventId)
    {
      entries := Put(entries, Key(provider, sourceEventId), canonicalEventId);
    }

    method Lookup(provider: string, sourceEventId: string) returns (id: Option<string>)
      ensures id == Get(entries, Key(provider, sourceEventId))
    {
      id := Get(entries, Key(provider, sourceEventId));
    }

    method ForCanonicalEvent(id: string) returns (mappings: seq<Mapping>)
      ensures mappings == Map(MappingOf, Filter(BoundTo(id), entries))
    {
      mappings := [];
      for i := 0 to |entries|
        invariant mappings == Map(MappingOf, Filter(BoundTo(id), entries[..i]))
      {
        assert entries[..i + 1] == entries[..i] + [entries[i]];
        FilterSnoc(BoundTo(id), entries[..i], entries[i]);
        if entries[i].value == id {
          mappings := mappings + [MappingOf(entries[i])];
        }
      }
      assert entries[..|entries|] == entries;
    }

    method Snapshot() returns (mappings: seq<Mapping>)
      ensures mappings == Map(MappingOf, entries)
    {
      mappings := [];
      for i := 0 to |entries|
        invariant mappings == Map(MappingOf, entries[..i])
      {
        mappings := mappings + [MappingOf(entries[i])];
      }
    }
  }

  // ---------------------------------------------------------------- events

  datatype Canonical = Canonical(
    id: string, competition: string, homeTeam: string, awayTeam: string, startTime: Option<int>, sources: seq<Source>)

  datatype Incoming = Incoming(
    provider: string, sourceEventId: string, homeTeam: string, awayTeam: string, competition: string, startTime: Option<int>)

  datatype Action = Created | Merged | Uncertain | Threw

  datatype Result = Result(action: Action, event: Option<Canonical>, confidence: real)

  datatype State = State(stored: Table<string, Canonical>, index: Bindings)

  type Assess = (Ref, Ref) -> Assessment

  datatype Setup = Setup(team: Fold, competition: Fold, assess: Assess, policy: Policy)

  predicate DistinctKeys(sources: seq<Source>) {
    forall i, j :: 0 <= i < j < |sources| ==> KeyOf(sources[i]) != KeyOf(sources[j])
  }

  // What the schema accepts.
  predicate Parses(e: Canonical) {
    && e.id != "" && e.competition != "" && e.homeTeam != "" && e.awayTeam != "" && e.startTime.Some?
    && e.homeTeam != e.awayTeam && DistinctKeys(e.sources)
    && forall i :: 0 <= i < |e.sources| ==> e.sources[i].provider != "" && e.sources[i].sourceEventId != ""
  }

  function Probe(input: Incoming): Ref {
    Ref(input.provider, input.sourceEventId, input.homeTeam, input.awayTeam, Some(input.competition), input.startTime)
  }

  function RefOf(e: Canonical): Ref {
    var first := if |e.sources| > 0 then e.sources[0] else EventPlan.Source("", "");
    Ref(first.provider, first.sourceEventId, e.homeTeam, e.awayTeam, Some(e.competition), e.startTime)
  }

  function KeyFor(input: Incoming): string {
    Key(input.provider, input.sourceEventId)
  }

  function SourceFor(input: Incoming): Source {
    EventPlan.Source(input.provider, input.sourceEventId)
  }

  datatype Candidate = Candidate(event: Canonical, assessment: Assessment)

  // The first stored event with the highest score.
  function Best(assess: Assess, probe: Ref, stored: Table<string, Canonical>): Option<Candidate> {
    if |stored| == 0 then None
    else
      var n := |stored| - 1;
      var before := Best(assess, probe, stored[..n]);
      var assessment := assess(probe, RefOf(stored[n].value));
      if before.None? || assessment.score > before.value.assessment.score
      then Some(Candidate(stored[n].value, assessment)) else before
  }

  // ---------------------------------------------------------------- registering

  datatype Outcome = Outcome(state: State, result: Result)

  const HELD := Result(Uncertain, None, 0.0)

  const THREW := Result(Threw, None, 0.0)

  function NewEvent(setup: Setup, input: Incoming): Canonical {
    Canonical(KeyFor(input), setup.competition(input.competition), setup.team(input.homeTeam), setup.team(input.awayTeam),
              input.startTime, [SourceFor(input)])
  }

  function Create(setup: Setup, s: State, input: Incoming): Outcome {
    var event := NewEvent(setup, input);
    if event.homeTeam == event.awayTeam then Outcome(s, HELD)
    else if !Parses(event) then Outcome(s, THREW)
    else Outcome(State(Put(s.stored, event.id, event), Put(s.index, KeyFor(input), event.id)), Result(Created, Some(event), 1.0))
  }

  function Merge(s: State, input: Incoming, target: Canonical, score: real): Outcome {
    var event := target.(sources := target.sources + [SourceFor(input)]);
    if SourceFor(input) in target.sources then Outcome(s, Result(Merged, Some(target), score))
    else if !Parses(event) then Outcome(s, THREW)
    else Outcome(State(Put(s.stored, event.id, event), Put(s.index, KeyFor(input), event.id)), Result(Merged, Some(event), score))
  }

  function Judge(setup: Setup, s: State, input: Incoming): Outcome {
    match Best(setup.assess, Probe(input), s.stored)
    case None => Create(setup, s, input)
    case Some(best) =>
      match Classify(best.assessment, setup.policy)
      case Confirmed => Merge(s, input, best.event, best.assessment.score)
      case Unsure => Outcome(s, HELD)
      case NoMatch => Create(setup, s, input)
  }

  function Register(setup: Setup, s: State, input: Incoming): Outcome {
    match Get(s.index, KeyFor(input))
    case Some(id) =>
      (match Get(s.stored, id)
       case None => Outcome(s, HELD)
       case Some(existing) => Outcome(s, Result(Merged, Some(existing), 1.0)))
    case None => Judge(setup, s, input)
  }

  class EventNormalizer {
    const setup: Setup
    const index: SourceIdIndex
    var stored: Table<string, Canonical>

    ghost function Abs(): State
      reads this, index
    {
      State(stored, index.entries)
    }

    constructor (setup: Setup, seedEvents: seq<Canonical>, seedIndex: SourceIdIndex)
      modifies seedIndex
      ensures this.setup == setup && index == seedIndex
      ensures Abs() == Seeded(State([], old(seedIndex.entries)), seedEvents)
    {
      this.setup, index, stored := setup, seedIndex, [];
      new;
      ghost var begin := State([], old(seedIndex.entries));
      for i := 0 to |seedEvents|
        invariant index == seedIndex && Abs() == Seeded(begin, seedEvents[..i])
      {
        var event := seedEvents[i];
        assert seedEvents[..i + 1][..i] == seedEvents[..i];
        stored := Put(stored, event.id, event);
        BindAll(event);
      }
      assert seedEvents[..|seedEvents|] == seedEvents;
    }

    method BindAll(event: Canonical)
      modifies index
      ensures index.entries == Bound(old(index.entries), event.sources, event.id)
    {
      for j := 0 to |event.sources|
        invariant index.entries == Bound(old(index.entries), event.sources[..j], event.id)
      {
        assert event.sources[..j + 1][..j] == event.sources[..j];
        index.Register(event.sources[j].provider, event.sources[j].sourceEventId, event.id);
      }
      assert event.sources[..|event.sources|] == event.sources;
    }

    method FindBest(probe: Ref) returns (best: Option<Candidate>)
      ensures best == Best(setup.assess, probe, stored)
    {
      best := None;
      for i := 0 to |stored|
        invariant best == Best(setup.assess, probe, stored[..i])
      {
        assert stored[..i + 1][..i] == stored[..i];
        var candidate := stored[i].value;
        var assessment := setup.assess(probe, RefOf(candidate));
        if best.None? || assessment.score > best.value.assessment.score {
          best := Some(Candidate(candidate, assessment));
        }
      }
      assert stored[..|stored|] == stored;
    }

    method RegisterEvent(input: Incoming) returns (result: Result)
      modifies this, index
      ensures Outcome(Abs(), result) == Register(setup, old(Abs()), input)
    {
      var duplicate := index.Lookup(input.provider, input.sourceEventId);
      if duplicate.Some? {
        var existing := Get(stored, duplicate.value);
        return if existing.None? then HELD else Result(Merged, existing, 1.0);
      }
      var best := FindBest(Probe(input));
      if best.None? {
        result := CreateEvent(input);
        return;
      }
      match Classify(best.value.assessment, setup.policy) {
        case Confirmed => result := MergeEvent(input, best.value.event, best.value.assessment.score);
        case Unsure => result := HELD;
        case NoMatch => result := CreateEvent(input);
      }
    }

    method CreateEvent(input: Incoming) returns (result: Result)
      modifies this, index
      ensures Outcome(Abs(), result) == Create(setup, old(Abs()), input)
    {
      var event := NewEvent(setup, input);
      if event.homeTeam == event.awayTeam {
        return HELD;
      }
      if !Parses(event) {
        return THREW;
      }
      stored := Put(stored, event.id, event);
      index.Register(input.provider, input.sourceEventId, event.id);
      result := Result(Created, Some(event), 1.0);
    }

    method MergeEvent(input: Incoming, target: Canonical, score: real) returns (result: Result)
      modifies this, index
      ensures Outcome(Abs(), result) == Merge(old(Abs()), input, target, score)
    {
      if SourceFor(input) in target.sources {
        return Result(Merged, Some(target), score);
      }
      var event := target.(sources := target.sources + [SourceFor(input)]);
      if !Parses(event) {
        return THREW;
      }
      stored := Put(stored, event.id, event);
      index.Register(input.provider, input.sourceEventId, event.id);
      result := Result(Merged, Some(event), score);
    }
  }

  // ---------------------------------------------------------------- seeds

  function Bound(index: Bindings, sources: seq<Source>, id: string): Bindings {
    if |sources| == 0 then index
    else
      var n := |sources| - 1;
      Put(Bound(index, sources[..n], id), KeyOf(sources[n]), id)
  }

  function Seeded(s: State, events: seq<Canonical>): State {
    if |events| == 0 then s
    else
      var n := |events| - 1;
      var before := Seeded(s, events[..n]);
      State(Put(before.stored, events[n].id, events[n]), Bound(before.index, events[n].sources, events[n].id))
  }
}
