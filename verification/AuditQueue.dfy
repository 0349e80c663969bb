// The bounded audit queue: what happens between two awaits is one step, and any interleaving of steps is a run.

module AuditQueue {
  import opened Lines

  datatype Row = Row(input: string, enqueuedAt: int)

  datatype Limits = Limits(maxQueueSize: int, batchSize: int, maxQueueAgeMs: int) {
    predicate Positive() {
      maxQueueSize > 0 && batchSize > 0 && maxQueueAgeMs > 0
    }
  }

  // Where the drain is suspended: not running, waiting for the write of the batch's first row, or waiting
  // for a persist that is over.
  datatype Point =
    | Idle
    | Writing(batch: seq<Row>, now: int, retryPending: bool)
    | Returned(retryPending: bool)

  datatype Counters = Counters(droppedQueueFull: nat, droppedTooOld: nat, writeFailures: nat, drained: nat)

  // What became of the rows, for the specification only.
  datatype Ledger = Ledger(accepted: seq<Row>, written: seq<Row>, shed: seq<Row>, lost: seq<Row>)

  datatype State = State(
    queue: seq<Row>, counters: Counters, draining: bool, pendingDrain: bool, point: Point, ledger: Ledger)

  datatype Outcome = Written | Refused | Failed

  const EMPTY := State([], Counters(0, 0, 0, 0), false, false, Idle, Ledger([], [], [], []))

  // ---------------------------------------------------------------- steps

  predicate TooOld(l: Limits, row: Row, now: int) {
    now - row.enqueuedAt > l.maxQueueAgeMs
  }

  // How many rows at the head are too old.
  function Stale(l: Limits, queue: seq<Row>, now: int): (n: nat)
    ensures n <= |queue|
    ensures forall i :: 0 <= i < n ==> now - queue[i].enqueuedAt > l.maxQueueAgeMs
    ensures n < |queue| ==> now - queue[n].enqueuedAt <= l.maxQueueAgeMs
  {
    if |queue| == 0 || !TooOld(l, queue[0], now) then 0 else 1 + Stale(l, queue[1..], now)
  }

  function Shed(s: State, n: nat): State
    requires n <= |s.queue|
  {
    s.(queue := s.queue[n..], counters := s.counters.(droppedTooOld := s.counters.droppedTooOld + n),
       ledger := s.ledger.(shed := s.ledger.shed + s.queue[..n]))
  }

  function Take(s: State, k: nat, now: int): State
    requires k <= |s.queue|
  {
    s.(queue := s.queue[k..], point := if k == 0 then Returned(false) else Writing(s.queue[..k], now, false))
  }

  function Min(a: int, b: int): int {
    if a < b then a else b
  }

  // Up to the first write, or to the end when there is nothing to write.
  function Persist(l: Limits, s: State, now: int): State
    requires l.Positive()
  {
    var left := Shed(s, Stale(l, s.queue, now));
    Take(left, Min(l.batchSize, |left.queue|), now)
  }

  // After a pass: another one when rows arrived meanwhile, else the drain is over.
  function PassOver(l: Limits, s: State, now: int): State
    requires l.Positive()
  {
    if s.pendingDrain && |s.queue| > 0 then Persist(l, s.(pendingDrain := false), now)
    else s.(draining := false, point := Idle)
  }

  function Pass(l: Limits, s: State, now: int): State
    requires l.Positive()
  {
    if |s.queue| > 0 then Persist(l, s, now) else PassOver(l, s, now)
  }

  function Drain(l: Limits, s: State, now: int): State
    requires l.Positive()
  {
    if s.draining then s.(pendingDrain := true)
    else Pass(l, s.(draining := true, pendingDrain := false), now)
  }

  function Push(s: State, row: Row): State {
    s.(queue := s.queue + [row], ledger := s.ledger.(accepted := s.ledger.accepted + [row]))
  }

  function Enqueue(l: Limits, s: State, row: Row, now: int): State
    requires l.Positive()
  {
    if |s.queue| >= l.maxQueueSize then s.(counters := s.counters.(droppedQueueFull := s.counters.droppedQueueFull + 1))
    else Drain(l, Push(s, row), now)
  }

  // The row being written is done with, whatever became of it.
  function Advance(p: Point, retried: bool): Point
    requires p.Writing? && |p.batch| > 0
  {
    if |p.batch| == 1 then Returned(p.retryPending || retried)
    else Writing(p.batch[1..], p.now, p.retryPending || retried)
  }

  // The write of the batch's first row settles.
  function Settle(l: Limits, s: State, outcome: Outcome): State
    requires s.point.Writing? && |s.point.batch| > 0
  {
    var row, c, g := s.point.batch[0], s.counters, s.ledger;
    match outcome
    case Written =>
      s.(counters := c.(drained := c.drained + 1), ledger := g.(written := g.written + [row]),
         point := Advance(s.point, false))
    case Refused =>
      s.(counters := c.(writeFailures := c.writeFailures + 1), ledger := g.(lost := g.lost + [row]),
         point := Advance(s.point, false))
    case Failed =>
      if TooOld(l, row, s.point.now) then
        s.(counters := c.(droppedTooOld := c.droppedTooOld + 1), ledger := g.(shed := g.shed + [row]),
           point := Advance(s.point, false))
      else
        s.(queue := [row] + s.queue, counters := c.(writeFailures := c.writeFailures + 1), point := Advance(s.point, true))
  }

  // The drain goes on after a persist.
  function Resume(l: Limits, s: State, now: int): State
    requires l.Positive() && s.point.Returned?
  {
    if s.point.retryPending || |s.queue| >= l.maxQueueSize then PassOver(l, s, now) else Pass(l, s, now)
  }

  lemma ShedOneMore(s: State, k: nat)
    requires k < |s.queue|
    ensures Shed(s, k + 1) == Shed(Shed(s, k), 1)
  {
    var left := Shed(s, k);
    assert s.queue[..k + 1] == s.queue[..k] + left.queue[..1];
    assert s.ledger.shed + s.queue[..k + 1] == s.ledger.shed + s.queue[..k] + left.queue[..1];
    assert s.queue[k + 1..] == left.queue[1..];
  }

  // ---------------------------------------------------------------- the queue itself

  class Queue {
    const limits: Limits
    var queue: seq<Row>
    var droppedQueueFull: nat
    var droppedTooOld: nat
    var writeFailures: nat
    var drained: nat
    var draining: bool
    var pendingDrain: bool
    var point: Point
    ghost var ledger: Ledger

    ghost function Abs(): State
      reads this
    {
      State(queue, Counters(droppedQueueFull, droppedTooOld, writeFailures, drained), draining, pendingDrain, point, ledger)
    }

    constructor (limits: Limits)
      requires limits.Positive()
      ensures this.limits == limits && Abs() == EMPTY
    {
      this.limits := limits;
      queue, droppedQueueFull, droppedTooOld, writeFailures, drained := [], 0, 0, 0, 0;
      draining, pendingDrain, point := false, false, Idle;
      ledger := EMPTY.ledger;
    }

    method ShedHead()
      requires |queue| > 0
      modifies this
      ensures Abs() == Shed(old(Abs()), 1)
    {
      assert queue[..1] == [queue[0]];
      ledger := ledger.(shed := ledger.shed + [queue[0]]);
      queue, droppedTooOld := queue[1..], droppedTooOld + 1;
    }

    // k rows are gone and the rest of the n are next.
    ghost predicate Shedding(before: State, k: nat, n: nat, now: int)
      reads this
    {
      && k + Stale(limits, queue, now) == n <= |before.queue| && k <= |before.queue|
      && Abs() == Shed(before, k)
    }

    method ShedOld(now: int)
      modifies this
      ensures Abs() == Shed(old(Abs()), Stale(limits, old(queue), now))
    {
      ghost var before, n, k := Abs(), Stale(limits, queue, now), 0;
      while |queue| > 0 && TooOld(limits, queue[0], now)
        invariant Shedding(before, k, n, now)
      {
        ShedOneMore(before, k);
        ShedHead();
        k := k + 1;
      }
    }

    method PersistRows(now: int)
      requires limits.Positive()
      modifies this
      ensures Abs() == Persist(limits, old(Abs()), now)
    {
      ShedOld(now);
      TakeBatch(now);
    }

    method TakeBatch(now: int)
      requires limits.Positive()
      modifies this
      ensures Abs() == Take(old(Abs()), Min(limits.batchSize, |old(queue)|), now)
    {
      var k := if limits.batchSize < |queue| then limits.batchSize else |queue|;
      point := if k == 0 then Returned(false) else Writing(queue[..k], now, false);
      queue := queue[k..];
    }

    method FinishPass(now: int)
      requires limits.Positive()
      modifies this
      ensures Abs() == PassOver(limits, old(Abs()), now)
    {
      if pendingDrain && |queue| > 0 {
        pendingDrain := false;
        PersistRows(now);
      } else {
        draining, point := false, Idle;
      }
    }

    method StartDrain(now: int)
      requires limits.Positive()
      modifies this
      ensures Abs() == Drain(limits, old(Abs()), now)
    {
      if draining {
        pendingDrain := true;
        return;
      }
      draining, pendingDrain := true, false;
      if |queue| > 0 {
        PersistRows(now);
      } else {
        FinishPass(now);
      }
    }

    method EnqueueRow(row: Row, now: int)
      requires limits.Positive()
      modifies this
      ensures Abs() == Enqueue(limits, old(Abs()), row, now)
    {
      if |queue| >= limits.maxQueueSize {
        droppedQueueFull := droppedQueueFull + 1;
        return;
      }
      queue := queue + [row];
      ledger := ledger.(accepted := ledger.accepted + [row]);
      StartDrain(now);
    }

    method SettleWrite(outcome: Outcome)
      requires point.Writing? && |point.batch| > 0
      modifies this
      ensures Abs() == Settle(limits, old(Abs()), outcome)
    {
      var row, retried := point.batch[0], false;
      match outcome {
        case Written =>
          drained := drained + 1;
          ledger := ledger.(written := ledger.written + [row]);
        case Refused =>
          writeFailures := writeFailures + 1;
          ledger := ledger.(lost := ledger.lost + [row]);
        case Failed =>
          if TooOld(limits, row, point.now) {
            droppedTooOld := droppedTooOld + 1;
            ledger := ledger.(shed := ledger.shed + [row]);
          } else {
            queue, retried, writeFailures := [row] + queue, true, writeFailures + 1;
          }
      }
      point := Advance(point, retried);
    }

    method ResumeDrain(now: int)
      requires limits.Positive() && point.Returned?
      modifies this
      ensures Abs() == Resume(limits, old(Abs()), now)
    {
      if point.retryPending || |queue| >= limits.maxQueueSize || |queue| == 0 {
        FinishPass(now);
      } else {
        PersistRows(now);
      }
    }
  }

  // Limits that are not positive are an error.
  method CreateAuditQueue(limits: Limits) returns (r: Option<Queue>)
    ensures r.Some? <==> limits.maxQueueSize > 0 && limits.batchSize > 0 && limits.maxQueueAgeMs > 0
    ensures r.Some? ==> fresh(r.value) && r.value.limits == limits && r.value.Abs() == EMPTY
  {
    if limits.maxQueueSize <= 0 || limits.batchSize <= 0 || limits.maxQueueAgeMs <= 0 {
      return None;
    }
    var queue := new Queue(limits);
    r := Some(queue);
  }

  // ---------------------------------------------------------------- runs

  datatype Event = Enqueues(row: Row, now: int) | Settles(outcome: Outcome) | Resumes(now: int)

  // An event that cannot happen in the state changes nothing.
  function Step(l: Limits, s: State, e: Event): State
    requires l.Positive()
  {
    match e
    case Enqueues(row, now) => Enqueue(l, s, row, now)
    case Settles(outcome) => if s.point.Writing? && |s.point.batch| > 0 then Settle(l, s, outcome) else s
    case Resumes(now) => if s.point.Returned? then Resume(l, s, now) else s
  }

  function RunFrom(l: Limits, s: State, events: seq<Event>): State
    requires l.Positive()
  {
    if |events| == 0 then s else Step(l, RunFrom(l, s, events[..|events| - 1]), events[|events| - 1])
  }

  function Run(l: Limits, events: seq<Event>): State
    requires l.Positive()
  {
    RunFrom(l, EMPTY, events)
  }

  function InBatch(s: State): seq<Row> {
    if s.point.Writing? then s.point.batch else []
  }

  // ---------------------------------------------------------------- what every step keeps

  // A measure of lists of rows: their number, say, or how often one row occurs.
  type Measure = seq<Row> -> int

  ghost predicate Additive(m: Measure) {
    forall xs, ys :: m(xs + ys) == m(xs) + m(ys)
  }

  // What was accepted is what was written, shed and lost and what is queued and in the batch.
  ghost predicate Balanced(m: Measure, g: Ledger, queue: seq<Row>, batch: seq<Row>) {
    m(g.accepted) == m(g.written) + m(g.shed) + m(g.lost) + m(queue) + m(batch)
  }

  ghost predicate Conserved(m: Measure, s: State) {
    Balanced(m, s.ledger, s.queue, InBatch(s))
  }

  ghost predicate Counted(s: State) {
    && s.counters.drained == |s.ledger.written| && s.counters.droppedTooOld == |s.ledger.shed|
    && s.counters.writeFailures >= |s.ledger.lost|
  }

  lemma Splits(m: Measure, q: seq<Row>, n: nat)
    requires n <= |q| && Additive(m)
    ensures m(q) == m(q[..n]) + m(q[n..])
    ensures m([]) == 0
  {
    assert q == q[..n] + q[n..];
    assert q[..0] + q[..0] == q[..0] == [];
  }

  // One drain at a time, and it is where the flag says.
  ghost predicate OneDrain(l: Limits, s: State) {
    && (s.draining <==> !s.point.Idle?)
    && (s.point.Writing? ==> 0 < |s.point.batch| <= l.batchSize)
  }

  ghost predicate Bounded(l: Limits, s: State) {
    |s.queue| + |InBatch(s)| <= l.maxQueueSize + l.batchSize
  }

  lemma PersistConserves(m: Measure, l: Limits, s: State, now: int)
    requires l.Positive() && Additive(m) && Conserved(m, s) && InBatch(s) == []
    ensures Conserved(m, Persist(l, s, now))
  {
    var n := Stale(l, s.queue, now);
    Splits(m, s.queue, n);
    var left := Shed(s, n);
    Splits(m, left.queue, Min(l.batchSize, |left.queue|));
  }

  lemma PersistTakes(l: Limits, s: State, now: int)
    requires l.Positive()
    ensures var next := Persist(l, s, now);
            && (next.point.Writing? ==> 0 < |next.point.batch| <= l.batchSize)
            && !next.point.Idle? && next.draining == s.draining && next.pendingDrain == s.pendingDrain
            && |next.queue| + |InBatch(next)| <= |s.queue| && (|next.queue| > 0 ==> |next.queue| < |s.queue|)
            && (next.point.Writing? || next.point.Returned?) && !next.point.retryPending
  {
    var left := Shed(s, Stale(l, s.queue, now));
    assert |left.queue| <= |s.queue|;
    TakeSplits(left, Min(l.batchSize, |left.queue|), now);
  }

  lemma TakeSplits(s: State, k: nat, now: int)
    requires k <= |s.queue|
    ensures var next := Take(s, k, now);
            |InBatch(next)| == k && |next.queue| == |s.queue| - k && (next.point.Writing? <==> k > 0)
  {
  }

  ghost predicate Sound(l: Limits, s: State) {
    Counted(s) && OneDrain(l, s) && Bounded(l, s)
  }

  lemma EnqueueSound(l: Limits, s: State, row: Row, now: int)
    requires l.Positive() && Sound(l, s)
    ensures Sound(l, Enqueue(l, s, row, now))
  {
    if |s.queue| < l.maxQueueSize && !s.draining {
      PersistTakes(l, Push(s, row).(draining := true, pendingDrain := false), now);
    }
  }

  lemma ResumeSound(l: Limits, s: State, now: int)
    requires l.Positive() && Sound(l, s) && s.point.Returned?
    ensures Sound(l, Resume(l, s, now))
  {
    if s.point.retryPending || |s.queue| >= l.maxQueueSize || |s.queue| == 0 {
      if s.pendingDrain && |s.queue| > 0 {
        PersistTakes(l, s.(pendingDrain := false), now);
      }
    } else {
      PersistTakes(l, s, now);
    }
  }

  lemma StepSound(l: Limits, s: State, e: Event)
    requires l.Positive() && Sound(l, s)
    ensures Sound(l, Step(l, s, e))
  {
    match e
    case Enqueues(row, now) => EnqueueSound(l, s, row, now);
    case Settles(outcome) =>
    case Resumes(now) => if s.point.Returned? { ResumeSound(l, s, now); }
  }

  lemma EnqueueConserves(m: Measure, l: Limits, s: State, row: Row, now: int)
    requires l.Positive() && OneDrain(l, s) && Additive(m) && Conserved(m, s)
    ensures Conserved(m, Enqueue(l, s, row, now))
  {
    if |s.queue| < l.maxQueueSize && !s.draining {
      PersistConserves(m, l, Push(s, row).(draining := true, pendingDrain := false), now);
    }
  }

  lemma SettleConserves(m: Measure, l: Limits, s: State, outcome: Outcome)
    requires l.Positive() && s.point.Writing? && |s.point.batch| > 0 && Additive(m) && Conserved(m, s)
    ensures Conserved(m, Settle(l, s, outcome))
  {
    Splits(m, s.point.batch, 1);
    assert s.point.batch[..1] == [s.point.batch[0]];
  }

  lemma ResumeConserves(m: Measure, l: Limits, s: State, now: int)
    requires l.Positive() && s.point.Returned? && Additive(m) && Conserved(m, s)
    ensures Conserved(m, Resume(l, s, now))
  {
    if s.point.retryPending || |s.queue| >= l.maxQueueSize || |s.queue| == 0 {
      if s.pendingDrain && |s.queue| > 0 {
        PersistConserves(m, l, s.(pendingDrain := false), now);
      } else {
        Splits(m, [], 0);
      }
    } else {
      PersistConserves(m, l, s, now);
    }
  }

  // Over every interleaving one drain runs at a time, and the rows held never exceed the queue's size and
  // one batch.
  lemma {:induction false} RunSound(l: Limits, events: seq<Event>)
    requires l.Positive()
    ensures Sound(l, Run(l, events))
  {
    if |events| > 0 {
      RunSound(l, events[..|events| - 1]);
      StepSound(l, Run(l, events[..|events| - 1]), events[|events| - 1]);
    }
  }

  lemma {:induction false} RunConserves(m: Measure, l: Limits, events: seq<Event>)
    requires l.Positive() && Additive(m)
    ensures Conserved(m, Run(l, events))
  {
    if |events| == 0 {
      Splits(m, [], 0);
    } else {
      var s, e := Run(l, events[..|events| - 1]), events[|events| - 1];
      RunConserves(m, l, events[..|events| - 1]);
      RunSound(l, events[..|events| - 1]);
      match e
      case Enqueues(row, now) => EnqueueConserves(m, l, s, row, now);
      case Settles(outcome) => if s.point.Writing? && |s.point.batch| > 0 { SettleConserves(m, l, s, outcome); }
      case Resumes(now) => if s.point.Returned? { ResumeConserves(m, l, s, now); }
    }
  }

  ghost function OccurrencesOf(row: Row): Measure {
    (xs: seq<Row>) => multiset(xs)[row]
  }

  // No row is lost, doubled or written twice: each accepted row is in exactly one place.
  lemma EveryRowIsSomewhere(l: Limits, events: seq<Event>)
    requires l.Positive()
    ensures var (s, g) := (Run(l, events), Run(l, events).ledger);
            multiset(g.accepted)
              == multiset(g.written) + multiset(g.shed) + multiset(g.lost) + multiset(s.queue) + multiset(InBatch(s))
  {
    forall row: Row ensures Conserved(OccurrencesOf(row), Run(l, events)) {
      RunConserves(OccurrencesOf(row), l, events);
    }
    SameOccurrences(Run(l, events).ledger, Run(l, events).queue, InBatch(Run(l, events)));
  }

  lemma SameOccurrences(g: Ledger, queue: seq<Row>, batch: seq<Row>)
    requires forall row: Row :: Balanced(OccurrencesOf(row), g, queue, batch)
    ensures multiset(g.accepted) == multiset(g.written) + multiset(g.shed) + multiset(g.lost) + multiset(queue) + multiset(batch)
  {
    forall row: Row
      ensures multiset(g.accepted)[row] == multiset(g.written)[row] + multiset(g.shed)[row] + multiset(g.lost)[row]
                                           + multiset(queue)[row] + multiset(batch)[row]
    {
      assert Balanced(OccurrencesOf(row), g, queue, batch);
    }
  }

  // In numbers: accepted rows are those drained, dropped as too old, refused by the writer, queued or in
  // the batch.
  lemma CountersAddUp(l: Limits, events: seq<Event>)
    requires l.Positive()
    ensures var s := Run(l, events);
            && |s.ledger.accepted|
                 == s.counters.drained + s.counters.droppedTooOld + |s.ledger.lost| + |s.queue| + |InBatch(s)|
            && |s.queue| + |InBatch(s)| <= l.maxQueueSize + l.batchSize
  {
    RunSound(l, events);
    RunConserves((xs: seq<Row>) => |xs|, l, events);
  }

  // ---------------------------------------------------------------- the size promised

  lemma EnqueueFits(l: Limits, s: State, row: Row, now: int)
    requires l.Positive() && |s.queue| <= l.maxQueueSize
    ensures |Enqueue(l, s, row, now).queue| <= l.maxQueueSize
  {
    PersistTakes(l, Push(s, row).(draining := true, pendingDrain := false), now);
  }

  lemma ResumeFits(l: Limits, s: State, now: int)
    requires l.Positive() && |s.queue| <= l.maxQueueSize && s.point.Returned?
    ensures |Resume(l, s, now).queue| <= l.maxQueueSize
  {
    if s.point.retryPending || |s.queue| >= l.maxQueueSize || |s.queue| == 0 {
      if s.pendingDrain && |s.queue| > 0 {
        PersistTakes(l, s.(pendingDrain := false), now);
      }
    } else {
      PersistTakes(l, s, now);
    }
  }

  // The queue outgrows its size exactly when a row comes back to a full one.
  lemma OutgrowsWhen(l: Limits, s: State, e: Event)
    requires l.Positive() && OneDrain(l, s) && |s.queue| <= l.maxQueueSize
    ensures |Step(l, s, e).queue| > l.maxQueueSize
        <==> (&& e == Settles(Failed) && s.point.Writing? && |s.queue| == l.maxQueueSize
              && s.point.now - s.point.batch[0].enqueuedAt <= l.maxQueueAgeMs)
  {
    match e
    case Enqueues(row, now) => EnqueueFits(l, s, row, now);
    case Settles(outcome) =>
    case Resumes(now) => if s.point.Returned? { ResumeFits(l, s, now); }
  }

  // ---------------------------------------------------------------- rows left behind

  // No write fails in a way that is tried again.
  ghost predicate NoRetries(events: seq<Event>) {
    forall i :: 0 <= i < |events| ==> events[i] != Settles(Failed)
  }

  ghost predicate NoneBehind(l: Limits, s: State) {
    && |s.queue| <= l.maxQueueSize && (s.point.Idle? ==> s.queue == [])
    && (!s.point.Idle? ==> !s.point.retryPending)
    && (|s.queue| == l.maxQueueSize ==> s.pendingDrain)
  }

  lemma StepLeavesNone(l: Limits, s: State, e: Event)
    requires l.Positive() && Sound(l, s) && NoneBehind(l, s) && e != Settles(Failed)
    ensures NoneBehind(l, Step(l, s, e))
  {
    match e
    case Enqueues(row, now) =>
      if |s.queue| < l.maxQueueSize && !s.draining {
        PersistTakes(l, Push(s, row).(draining := true, pendingDrain := false), now);
      }
    case Settles(outcome) =>
    case Resumes(now) =>
      if s.point.Returned? {
        PersistTakes(l, s, now);
        PersistTakes(l, s.(pendingDrain := false), now);
      }
  }

  // As long as no write fails retryably, an idle queue is an empty one.
  lemma {:induction false} NothingLeftBehind(l: Limits, events: seq<Event>)
    requires l.Positive() && NoRetries(events)
    ensures NoneBehind(l, Run(l, events))
    ensures Run(l, events).point.Idle? ==> Run(l, events).queue == []
  {
    if |events| > 0 {
      var n := |events| - 1;
      assert forall i :: 0 <= i < n ==> events[..n][i] == events[i];
      NothingLeftBehind(l, events[..n]);
      RunSound(l, events[..n]);
      StepLeavesNone(l, Run(l, events[..n]), events[n]);
    }
  }

  ghost predicate Stuck(l: Limits, s: State) {
    s.point.Idle? && |s.queue| >= l.maxQueueSize
  }

  lemma StuckStep(l: Limits, s: State, e: Event)
    requires l.Positive() && Stuck(l, s)
    ensures Step(l, s, e) == s.(counters := Step(l, s, e).counters)
    ensures Step(l, s, e).counters.drained == s.counters.drained
  {
  }

  // Once idle and full, the queue refuses every row and never drains again.
  lemma {:induction false} StuckForever(l: Limits, s: State, later: seq<Event>)
    requires l.Positive() && Stuck(l, s)
    ensures var end := RunFrom(l, s, later); end == s.(counters := end.counters) && end.counters.drained == s.counters.drained
  {
    if |later| > 0 {
      StuckForever(l, s, later[..|later| - 1]);
      StuckStep(l, RunFrom(l, s, later[..|later| - 1]), later[|later| - 1]);
    }
  }

  // An idle queue starts to drain again on the next row exactly when it is not full.
  lemma WakesWhen(l: Limits, s: State, row: Row, now: int)
    requires l.Positive() && Sound(l, s) && s.point.Idle?
    ensures Enqueue(l, s, row, now).draining <==> |s.queue| < l.maxQueueSize
  {
  }

  lemma RunSnoc(l: Limits, events: seq<Event>, e: Event)
    requires l.Positive()
    ensures Run(l, events + [e]) == Step(l, Run(l, events), e)
  {
    assert (events + [e])[..|events|] == events;
  }

  // n rows have arrived at one time: the first is being written and the rest are queued.
  ghost predicate Filling(s: State, rows: seq<Row>, n: nat, now: int)
    requires 0 < n <= |rows|
  {
    && s.queue == rows[1..n] && s.point == Writing([rows[0]], now, false) && s.draining
    && s.pendingDrain == (n > 1) && s.ledger.accepted == rows[..n]
  }

  ghost predicate AllAt(rows: seq<Row>, now: int) {
    forall i :: 0 <= i < |rows| ==> rows[i].enqueuedAt == now
  }

  lemma FirstArrives(l: Limits, rows: seq<Row>, now: int)
    requires l.Positive() && |rows| > 0 && AllAt(rows, now)
    ensures Filling(Enqueue(l, EMPTY, rows[0], now), rows, 1, now)
  {
    var pushed := Push(EMPTY, rows[0]);
    assert pushed.queue == [rows[0]] == pushed.ledger.accepted;
    assert Stale(l, pushed.queue, now) == 0;
    assert pushed.queue[..1] == [rows[0]] && pushed.queue[1..] == rows[1..1] && rows[..1] == [rows[0]];
    assert pushed.queue[0..] == pushed.queue;
  }

  lemma NextArrives(l: Limits, s: State, rows: seq<Row>, n: nat, now: int)
    requires l.Positive() && 0 < n < |rows| <= l.maxQueueSize + 1 && Filling(s, rows, n, now)
    ensures Filling(Enqueue(l, s, rows[n], now), rows, n + 1, now)
  {
    assert rows[1..n + 1] == rows[1..n] + [rows[n]] && rows[..n + 1] == rows[..n] + [rows[n]];
  }

  // As many rows as the queue takes, and the one in the batch, all arrive before the first write settles.
  lemma {:induction false} Fill(l: Limits, rows: seq<Row>, n: nat, now: int) returns (events: seq<Event>)
    requires l.Positive() && 0 < n <= |rows| <= l.maxQueueSize + 1 && AllAt(rows, now)
    ensures Filling(Run(l, events), rows, n, now)
  {
    if n == 1 {
      events := [Enqueues(rows[0], now)];
      RunSnoc(l, [], events[0]);
      assert [] + events == events;
      FirstArrives(l, rows, now);
    } else {
      var before := Fill(l, rows, n - 1, now);
      events := before + [Enqueues(rows[n - 1], now)];
      RunSnoc(l, before, Enqueues(rows[n - 1], now));
      NextArrives(l, Run(l, before), rows, n - 1, now);
    }
  }

  // The drain is waiting for the writes of a batch; it and the queue hold rows of one time.
  ghost predicate Waiting(s: State, now: int) {
    && s.point.Writing? && |s.point.batch| > 0 && s.point.now == now
    && AllAt(s.queue, now) && AllAt(s.point.batch, now)
  }

  ghost predicate Retries(s: State, queued: nat, pendingDrain: bool, accepted: seq<Row>, now: int) {
    && s.point == Returned(true) && |s.queue| == queued && AllAt(s.queue, now)
    && s.pendingDrain == pendingDrain && s.ledger.accepted == accepted
  }

  function Reversed(rows: seq<Row>): (r: seq<Row>)
    ensures |r| == |rows|
  {
    if |rows| == 0 then [] else Reversed(rows[1..]) + [rows[0]]
  }

  lemma ReversedOn(batch: seq<Row>, queue: seq<Row>)
    requires |batch| > 0
    ensures Reversed(batch) + queue == Reversed(batch[1..]) + ([batch[0]] + queue)
  {
  }

  // Every write of the batch fails, and every row comes back to the queue: in front, and in reverse order.
  lemma {:induction false} FailBatch(l: Limits, events: seq<Event>, now: int) returns (more: seq<Event>)
    requires l.Positive() && Waiting(Run(l, events), now)
    ensures var s := Run(l, events);
            && Retries(Run(l, more), |s.queue| + |s.point.batch|, s.pendingDrain, s.ledger.accepted, now)
            && Run(l, more).queue == Reversed(s.point.batch) + s.queue
    decreases |Run(l, events).point.batch|
  {
    more := events + [Settles(Failed)];
    RunSnoc(l, events, Settles(Failed));
    ReversedOn(Run(l, events).point.batch, Run(l, events).queue);
    if |Run(l, events).point.batch| > 1 {
      assert Run(l, more).point.batch == Run(l, events).point.batch[1..];
      more := FailBatch(l, more, now);
    }
  }

  // The rows that came back are tried once more when others arrived meanwhile ...
  lemma TriesAgain(l: Limits, s: State, queued: nat, accepted: seq<Row>, now: int)
    requires l.Positive() && queued > 0 && Retries(s, queued, true, accepted, now)
    ensures var next := Resume(l, s, now);
            && Waiting(next, now) && |next.queue| + |next.point.batch| == queued && !next.pendingDrain
            && next.ledger.accepted == accepted
  {
    var again := s.(pendingDrain := false);
    assert Stale(l, again.queue, now) == 0;
    assert Shed(again, 0).queue == again.queue;
  }

  // ... and when none did, the drain ends with the rows still queued.
  lemma GivesUp(l: Limits, s: State, queued: nat, accepted: seq<Row>, now: int)
    requires l.Positive() && Retries(s, queued, false, accepted, now)
    ensures var next := Resume(l, s, now);
            next.point.Idle? && |next.queue| == queued && next.ledger.accepted == accepted
  {
  }

  // Whatever the limits, rows that all arrive before the first write settles leave the queue stuck with one
  // row more than its size when every write fails until the drain gives up.
  lemma StuckIsReachable(l: Limits, rows: seq<Row>, now: int) returns (events: seq<Event>)
    requires l.Positive() && |rows| == l.maxQueueSize + 1 && AllAt(rows, now)
    ensures var s := Run(l, events);
            Stuck(l, s) && |s.queue| == l.maxQueueSize + 1 && s.ledger.accepted == rows
  {
    var filled := Fill(l, rows, |rows|, now);
    assert rows[..|rows|] == rows;
    var failed := FailBatch(l, filled, now);
    RunSnoc(l, failed, Resumes(now));
    TriesAgain(l, Run(l, failed), |rows|, rows, now);
    var again := FailBatch(l, failed + [Resumes(now)], now);
    RunSnoc(l, again, Resumes(now));
    GivesUp(l, Run(l, again), |rows|, rows, now);
    events := again + [Resumes(now)];
  }
}
