// What each event does to the audit queue, in terms of its rows, their ages and the counters.

module AuditQueueMeans {
  import opened AuditQueue

  // From queue the drain sheds the rows at the head that are too old, and no others, and takes the next rows,
  // up to a batch, to be written; with none to write it has returned.
  ghost predicate TakesUp(l: Limits, s: State, queue: seq<Row>, now: int, t: State, shed: nat, taken: nat) {
    && shed + taken <= |queue| && t.draining
    && (forall i :: 0 <= i < shed ==> now - queue[i].enqueuedAt > l.maxQueueAgeMs)
    && (shed < |queue| ==> now - queue[shed].enqueuedAt <= l.maxQueueAgeMs)
    && taken <= l.batchSize && (taken < l.batchSize ==> shed + taken == |queue|)
    && t.queue == queue[shed + taken..]
    && t.point == (if taken == 0 then Returned(false) else Writing(queue[shed..shed + taken], now, false))
    && t.counters == s.counters.(droppedTooOld := s.counters.droppedTooOld + shed)
    && t.ledger.shed == s.ledger.shed + queue[..shed]
    && t.ledger.written == s.ledger.written && t.ledger.lost == s.ledger.lost
  }

  lemma PersistTakesUp(l: Limits, s: State, now: int) returns (shed: nat, taken: nat)
    requires l.Positive() && s.draining
    ensures TakesUp(l, s, s.queue, now, Persist(l, s, now), shed, taken)
    ensures Persist(l, s, now).ledger.accepted == s.ledger.accepted && Persist(l, s, now).pendingDrain == s.pendingDrain
  {
    shed := Stale(l, s.queue, now);
    var left := s.queue[shed..];
    taken := if l.batchSize < |left| then l.batchSize else |left|;
    assert left[..taken] == s.queue[shed..shed + taken] && left[taken..] == s.queue[shed + taken..];
  }

  ghost predicate TurnsAway(l: Limits, s: State, t: State) {
    t == s.(counters := s.counters.(droppedQueueFull := s.counters.droppedQueueFull + 1))
  }

  // The row is queued and the drain that runs is told.
  ghost predicate LeavesWord(s: State, row: Row, t: State) {
    && t.queue == s.queue + [row] && t.pendingDrain && t.draining && t.point == s.point && t.counters == s.counters
    && t.ledger == s.ledger.(accepted := s.ledger.accepted + [row])
  }

  // The row is queued and a drain starts.
  ghost predicate WakesUp(l: Limits, s: State, row: Row, now: int, t: State, shed: nat, taken: nat) {
    && TakesUp(l, s, s.queue + [row], now, t, shed, taken) && !t.pendingDrain
    && t.ledger.accepted == s.ledger.accepted + [row]
  }

  lemma WakingMeans(l: Limits, s: State, row: Row, now: int, t: State) returns (shed: nat, taken: nat)
    requires l.Positive() && |s.queue| < l.maxQueueSize && !s.draining && t == Enqueue(l, s, row, now)
    ensures WakesUp(l, s, row, now, t, shed, taken)
  {
    var pushed := Push(s, row).(draining := true, pendingDrain := false);
    shed, taken := PersistTakesUp(l, pushed, now);
    assert t == Persist(l, pushed, now);
  }

  // A row that arrives at a full queue is refused and counted; any other is accepted at the end of the queue, and
  // starts the drain, or leaves word for the one that runs.
  lemma ArrivalMeans(l: Limits, s: State, row: Row, now: int) returns (shed: nat, taken: nat)
    requires l.Positive()
    ensures var t := Step(l, s, Enqueues(row, now));
            if |s.queue| >= l.maxQueueSize then TurnsAway(l, s, t)
            else if s.draining then LeavesWord(s, row, t)
            else WakesUp(l, s, row, now, t, shed, taken)
  {
    shed, taken := 0, 0;
    if |s.queue| < l.maxQueueSize && !s.draining {
      shed, taken := WakingMeans(l, s, row, now, Step(l, s, Enqueues(row, now)));
    }
  }

  // Once the batch's first row is settled the next one is being written, or the persist has returned; it remembers
  // whether a row came back.
  ghost predicate MovesOn(before: Point, after: Point, retried: bool)
    requires before.Writing? && |before.batch| > 0
  {
    after == if |before.batch| == 1 then Returned(before.retryPending || retried)
             else Writing(before.batch[1..], before.now, before.retryPending || retried)
  }

  // A row is written, refused for good, or fails: then it comes back in front of the queue unless it was too old
  // when the batch was taken, and the failure is counted.
  lemma WriteMeans(l: Limits, s: State, outcome: Outcome)
    requires l.Positive() && s.point.Writing? && |s.point.batch| > 0
    ensures var t, row, c, g := Step(l, s, Settles(outcome)), s.point.batch[0], s.counters, s.ledger;
            var aged := s.point.now - row.enqueuedAt > l.maxQueueAgeMs;
            && t.draining == s.draining && t.pendingDrain == s.pendingDrain
            && MovesOn(s.point, t.point, outcome == Failed && !aged)
            && t.queue == (if outcome == Failed && !aged then [row] + s.queue else s.queue)
            && t.counters == (if outcome == Written then c.(drained := c.drained + 1)
                              else if outcome == Failed && aged then c.(droppedTooOld := c.droppedTooOld + 1)
                              else c.(writeFailures := c.writeFailures + 1))
            && t.ledger == (match outcome
                            case Written => g.(written := g.written + [row])
                            case Refused => g.(lost := g.lost + [row])
                            case Failed => if aged then g.(shed := g.shed + [row]) else g)
  {
  }

  // A row came back, or the queue is full.
  ghost predicate Held(l: Limits, s: State) {
    s.point == Returned(true) || |s.queue| >= l.maxQueueSize
  }

  ghost predicate GoesOn(l: Limits, s: State, now: int, t: State, pendingDrain: bool, shed: nat, taken: nat) {
    TakesUp(l, s, s.queue, now, t, shed, taken) && t.ledger.accepted == s.ledger.accepted && t.pendingDrain == pendingDrain
  }

  lemma GoesStraightOn(l: Limits, s: State, now: int, t: State) returns (shed: nat, taken: nat)
    requires l.Positive() && s.point.Returned? && s.draining && t == Resume(l, s, now) && |s.queue| > 0 && !Held(l, s)
    ensures GoesOn(l, s, now, t, s.pendingDrain, shed, taken)
  {
    shed, taken := PersistTakesUp(l, s, now);
    assert t == Persist(l, s, now);
  }

  lemma GoesOnOnce(l: Limits, s: State, now: int, t: State) returns (shed: nat, taken: nat)
    requires l.Positive() && s.point.Returned? && s.draining && t == Resume(l, s, now)
    requires |s.queue| > 0 && Held(l, s) && s.pendingDrain
    ensures GoesOn(l, s, now, t, false, shed, taken)
  {
    var again := s.(pendingDrain := false);
    shed, taken := PersistTakesUp(l, again, now);
    assert t == Persist(l, again, now);
  }

  lemma DrainIsOver(l: Limits, s: State, now: int, t: State)
    requires l.Positive() && s.point.Returned? && s.draining && t == Resume(l, s, now)
    requires |s.queue| == 0 || (Held(l, s) && !s.pendingDrain)
    ensures t == s.(draining := false, point := Idle)
  {
  }

  // After a persist the drain goes on while rows are queued, unless one came back or the queue is full; then it goes
  // on only if rows arrived meanwhile, which it then forgets. Otherwise it is over.
  lemma ReturnMeans(l: Limits, s: State, now: int) returns (shed: nat, taken: nat)
    requires l.Positive() && s.point.Returned? && s.draining
    ensures var t := Step(l, s, Resumes(now));
            if |s.queue| > 0 && !Held(l, s) then GoesOn(l, s, now, t, s.pendingDrain, shed, taken)
            else if |s.queue| > 0 && s.pendingDrain then GoesOn(l, s, now, t, false, shed, taken)
            else t == s.(draining := false, point := Idle)
  {
    shed, taken := 0, 0;
    var t := Step(l, s, Resumes(now));
    if |s.queue| > 0 && !Held(l, s) {
      shed, taken := GoesStraightOn(l, s, now, t);
    } else if |s.queue| > 0 && s.pendingDrain {
      shed, taken := GoesOnOnce(l, s, now, t);
    } else {
      DrainIsOver(l, s, now, t);
    }
  }

  // ---------------------------------------------------------------- over whole runs

  ghost function Arrivals(events: seq<Event>): nat {
    if |events| == 0 then 0 else Arrivals(events[..|events| - 1]) + if events[|events| - 1].Enqueues? then 1 else 0
  }

  // Every row that arrived was accepted or counted as refused for a full queue.
  lemma {:induction false} EveryArrivalCounts(l: Limits, events: seq<Event>)
    requires l.Positive()
    ensures Arrivals(events) == |Run(l, events).ledger.accepted| + Run(l, events).counters.droppedQueueFull
  {
    if |events| > 0 {
      var front, e := events[..|events| - 1], events[|events| - 1];
      EveryArrivalCounts(l, front);
      RunSound(l, front);
      StepAccepts(l, Run(l, front), e);
    }
  }

  lemma StepAccepts(l: Limits, s: State, e: Event)
    requires l.Positive() && Sound(l, s)
    ensures var t := Step(l, s, e);
            |t.ledger.accepted| + t.counters.droppedQueueFull
              == |s.ledger.accepted| + s.counters.droppedQueueFull + if e.Enqueues? then 1 else 0
  {
    match e
    case Enqueues(row, now) => var _, _ := ArrivalMeans(l, s, row, now);
    case Settles(_) =>
    case Resumes(now) => if s.point.Returned? { var _, _ := ReturnMeans(l, s, now); }
  }

  ghost predicate HappensAt(events: seq<Event>, now: int) {
    exists i :: 0 <= i < |events| && ((events[i].Enqueues? && events[i].now == now) || (events[i].Resumes? && events[i].now == now))
  }

  // Rows shed only once they were too old at some time of the run; and batches taken at such a time.
  ghost predicate ShedOld(l: Limits, events: seq<Event>, s: State) {
    && (forall row :: row in s.ledger.shed ==> exists now :: HappensAt(events, now) && now - row.enqueuedAt > l.maxQueueAgeMs)
    && (s.point.Writing? ==> HappensAt(events, s.point.now))
  }

  lemma HappensSnoc(events: seq<Event>, e: Event, now: int)
    ensures HappensAt(events, now) ==> HappensAt(events + [e], now)
    ensures (e.Enqueues? || e.Resumes?) ==> HappensAt(events + [e], e.now)
  {
    assert (events + [e])[|events|] == e;
    if HappensAt(events, now) {
      var i :| 0 <= i < |events| && ((events[i].Enqueues? && events[i].now == now) || (events[i].Resumes? && events[i].now == now));
      assert (events + [e])[i] == events[i];
    }
  }

  lemma TimesStay(l: Limits, events: seq<Event>, e: Event, s: State, row: Row)
    requires ShedOld(l, events, s) && row in s.ledger.shed
    ensures exists now :: HappensAt(events + [e], now) && now - row.enqueuedAt > l.maxQueueAgeMs
  {
    var now :| HappensAt(events, now) && now - row.enqueuedAt > l.maxQueueAgeMs;
    HappensSnoc(events, e, now);
  }

  lemma ShedMore(l: Limits, events: seq<Event>, e: Event, s: State, t: State, more: seq<Row>, now: int)
    requires ShedOld(l, events, s) && t.ledger.shed == s.ledger.shed + more && HappensAt(events + [e], now)
    requires forall row :: row in more ==> now - row.enqueuedAt > l.maxQueueAgeMs
    requires t.point.Writing? ==> t.point.now == now || (s.point.Writing? && t.point.now == s.point.now)
    ensures ShedOld(l, events + [e], t)
  {
    forall row | row in t.ledger.shed
      ensures exists now :: HappensAt(events + [e], now) && now - row.enqueuedAt > l.maxQueueAgeMs
    {
      if row in s.ledger.shed {
        TimesStay(l, events, e, s, row);
      }
    }
    if s.point.Writing? {
      HappensSnoc(events, e, s.point.now);
    }
  }

  lemma ShedNone(l: Limits, events: seq<Event>, e: Event, s: State, t: State)
    requires ShedOld(l, events, s) && t.ledger.shed == s.ledger.shed
    requires t.point.Writing? ==> s.point.Writing? && t.point.now == s.point.now
    ensures ShedOld(l, events + [e], t)
  {
    forall row | row in t.ledger.shed
      ensures exists now :: HappensAt(events + [e], now) && now - row.enqueuedAt > l.maxQueueAgeMs
    {
      TimesStay(l, events, e, s, row);
    }
    if s.point.Writing? {
      HappensSnoc(events, e, s.point.now);
    }
  }

  lemma ArrivalSheds(l: Limits, events: seq<Event>, s: State, row: Row, now: int)
    requires l.Positive() && ShedOld(l, events, s)
    ensures ShedOld(l, events + [Enqueues(row, now)], Step(l, s, Enqueues(row, now)))
  {
    var e := Enqueues(row, now);
    var shed, taken := ArrivalMeans(l, s, row, now);
    HappensSnoc(events, e, now);
    if |s.queue| >= l.maxQueueSize || s.draining {
      ShedNone(l, events, e, s, Step(l, s, e));
    } else {
      ShedMore(l, events, e, s, Step(l, s, e), (s.queue + [row])[..shed], now);
    }
  }

  lemma WriteSheds(l: Limits, events: seq<Event>, s: State, outcome: Outcome)
    requires l.Positive() && ShedOld(l, events, s) && s.point.Writing? && |s.point.batch| > 0
    ensures ShedOld(l, events + [Settles(outcome)], Step(l, s, Settles(outcome)))
  {
    var e, row := Settles(outcome), s.point.batch[0];
    WriteMeans(l, s, outcome);
    HappensSnoc(events, e, s.point.now);
    if outcome == Failed && s.point.now - row.enqueuedAt > l.maxQueueAgeMs {
      ShedMore(l, events, e, s, Step(l, s, e), [row], s.point.now);
    } else {
      ShedNone(l, events, e, s, Step(l, s, e));
    }
  }

  lemma ReturnSheds(l: Limits, events: seq<Event>, s: State, now: int)
    requires l.Positive() && ShedOld(l, events, s) && s.point.Returned? && s.draining
    ensures ShedOld(l, events + [Resumes(now)], Step(l, s, Resumes(now)))
  {
    var e := Resumes(now);
    var shed, taken := ReturnMeans(l, s, now);
    HappensSnoc(events, e, now);
    if Step(l, s, e).point.Idle? {
      ShedNone(l, events, e, s, Step(l, s, e));
    } else {
      ShedMore(l, events, e, s, Step(l, s, e), s.queue[..shed], now);
    }
  }

  // Over every interleaving, a row is dropped as too old only if it was older than maxQueueAgeMs at some time of the run.
  lemma {:induction false} OnlyOldRowsAreShed(l: Limits, events: seq<Event>)
    requires l.Positive()
    ensures ShedOld(l, events, Run(l, events))
  {
    if |events| > 0 {
      var front, e := events[..|events| - 1], events[|events| - 1];
      var s := Run(l, front);
      OnlyOldRowsAreShed(l, front);
      RunSound(l, front);
      assert events == front + [e];
      match e
      case Enqueues(row, now) => ArrivalSheds(l, front, s, row, now);
      case Settles(outcome) => if s.point.Writing? { WriteSheds(l, front, s, outcome); } else { ShedNone(l, front, e, s, s); }
      case Resumes(now) => if s.point.Returned? { ReturnSheds(l, front, s, now); } else { ShedNone(l, front, e, s, s); }
    }
  }
}
