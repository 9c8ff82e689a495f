/** The audit sink's lossy bounded queue: what it drops it counts, and the count goes into the
    record at the place of the loss. */
module Audit {
  import opened Prelude

  /** What an emitting site hands over, already pseudonymised. */
  datatype AuditEvent = AuditEvent(action: string, outcome: string, subject: string, at: Timestamp)

  /** A row of the durable record: an event, or a hole of `dropped` events. */
  datatype Row = Event(event: AuditEvent) | Gap(dropped: nat)

  /** `queue` is what the writer has been handed and not applied, `applied` what it has. */
  datatype Sink = Sink(depth: int, pendingGap: nat, queue: seq<Row>, applied: seq<Row>)

  function Enqueue(s: Sink, row: Row): Sink {
    s.(depth := s.depth + 1, queue := s.queue + [row])
  }

  function Record(capacity: nat, s: Sink, event: AuditEvent): Sink {
    if s.depth >= capacity then s.(pendingGap := s.pendingGap + 1)
    else
      var gapped := if s.pendingGap > 0 then Enqueue(s.(pendingGap := 0), Gap(s.pendingGap)) else s;
      Enqueue(gapped, Event(event))
  }

  /** The writer applies the oldest `n` queued rows (all of them if there are fewer). */
  function Drain(s: Sink, n: nat): Sink {
    var k := Min(n, |s.queue|);
    Sink(s.depth - k, s.pendingGap, s.queue[k..], s.applied + s.queue[..k])
  }

  const EXCHANGE_MAP_MAX: nat := 8_192

  /** `(action, who, for what)`. */
  datatype Pair = Pair(action: string, who: string, what: string)

  /** Should this exchange be recorded, or was an equivalent one recorded within the window? */
  function ShouldRecord(window: int, seen: map<Pair, Timestamp>, pair: Pair, now: Timestamp)
    : (map<Pair, Timestamp>, bool)
  {
    if window <= 0 then (seen, true)
    else if pair in seen && now - seen[pair] < window then (seen, false)
    else ((if |seen| >= EXCHANGE_MAP_MAX then map[] else seen)[pair := now], true)
  }

  class AuditSink {
    const capacity: nat
    const coalesceSecs: int
    var depth: int
    var pendingGap: nat
    var exchangeSeen: map<Pair, Timestamp>
    /** The writer's side. */
    var queue: seq<Row>
    var applied: seq<Row>

    ghost function View(): Sink
      reads this
    {
      Sink(depth, pendingGap, queue, applied)
    }

    constructor (capacity: nat, coalesceSecs: int)
      ensures this.capacity == capacity && this.coalesceSecs == coalesceSecs
      ensures View() == Empty() && exchangeSeen == map[]
    {
      this.capacity := capacity;
      this.coalesceSecs := coalesceSecs;
      depth, pendingGap, exchangeSeen, queue, applied := 0, 0, map[], [], [];
    }

    /** Tier B: enqueue and return, or count the loss. */
    method RecordEvent(event: AuditEvent)
      modifies this
      ensures View() == Record(capacity, old(View()), event)
      ensures exchangeSeen == old(exchangeSeen)
    {
      if depth >= capacity {
        pendingGap := pendingGap + 1;
        return;
      }
      var dropped := pendingGap;
      pendingGap := 0;
      if dropped > 0 {
        EnqueueRow(Gap(dropped));
      }
      EnqueueRow(Event(event));
    }

    method EnqueueRow(row: Row)
      modifies this
      ensures View() == Enqueue(old(View()), row)
      ensures exchangeSeen == old(exchangeSeen)
    {
      depth := depth + 1;
      queue := queue + [row];
    }

    /** One writer batch: depth is released for every row taken, then the rows are applied in
        order. */
    method ApplyBatch(n: nat)
      modifies this
      ensures View() == Drain(old(View()), n)
      ensures var k := if n <= |old(queue)| then n else |old(queue)|;
              && applied == old(applied) + old(queue)[..k] && queue == old(queue)[k..]
              && depth == old(depth) - k && pendingGap == old(pendingGap)
      ensures exchangeSeen == old(exchangeSeen)
    {
      var batch := queue[..Min(n, |queue|)];
      queue := queue[|batch|..];
      for i := 0 to |batch|
        invariant depth == old(depth) - i
        invariant pendingGap == old(pendingGap) && exchangeSeen == old(exchangeSeen)
        invariant queue == old(queue)[|batch|..] && applied == old(applied)
      {
        depth := depth - 1;
      }
      for i := 0 to |batch|
        invariant depth == old(depth) - |batch|
        invariant pendingGap == old(pendingGap) && exchangeSeen == old(exchangeSeen)
        invariant queue == old(queue)[|batch|..] && applied == old(applied) + batch[..i]
      {
        applied := applied + [batch[i]];
      }
      assert batch[..|batch|] == batch;
    }

    method ShouldRecordExchange(pair: Pair, now: Timestamp) returns (yes: bool)
      modifies `exchangeSeen
      ensures (exchangeSeen, yes) == ShouldRecord(coalesceSecs, old(exchangeSeen), pair, now)
    {
      if coalesceSecs <= 0 {
        return true;
      }
      if pair in exchangeSeen {
        if now - exchangeSeen[pair] < coalesceSecs {
          return false;
        }
      }
      if |exchangeSeen| >= EXCHANGE_MAP_MAX {
        exchangeSeen := map[];
      }
      exchangeSeen := exchangeSeen[pair := now];
      yes := true;
    }
  }

  function Empty(): Sink {
    Sink(0, 0, [], [])
  }

  // ---------------------------------------------------------------------------------------
  // The record, read position by position
  // ---------------------------------------------------------------------------------------

  datatype Step = Call(event: AuditEvent) | Batch(n: nat)

  function Run(capacity: nat, s: Sink, steps: seq<Step>): Sink
    decreases |steps|
  {
    if steps == [] then s else Run(capacity, After(capacity, s, steps[0]), steps[1..])
  }

  function After(capacity: nat, s: Sink, step: Step): Sink {
    match step
    case Call(event) => Record(capacity, s, event)
    case Batch(n) => Drain(s, n)
  }

  /** What became of each record call of a run, in order: the event itself if it was accepted,
      `None` if it was dropped. */
  function Calls(capacity: nat, s: Sink, steps: seq<Step>): seq<Option<AuditEvent>>
    decreases |steps|
  {
    if steps == [] then []
    else
      Outcome(capacity, s, steps[0]) + Calls(capacity, After(capacity, s, steps[0]), steps[1..])
  }

  function Outcome(capacity: nat, s: Sink, step: Step): seq<Option<AuditEvent>> {
    match step
    case Call(event) => [if s.depth >= capacity then None else Some(event)]
    case Batch(_) => []
  }

  function Lost(n: nat): (holes: seq<Option<AuditEvent>>)
    ensures |holes| == n
    ensures forall i :: 0 <= i < n ==> holes[i] == None
  {
    seq(n, _ => None)
  }

  /** The positions a row stands for. */
  function Slots(row: Row): seq<Option<AuditEvent>> {
    match row
    case Event(event) => [Some(event)]
    case Gap(dropped) => Lost(dropped)
  }

  /** A record with each gap row spread over the positions it stands for. */
  function Expand(rows: seq<Row>): seq<Option<AuditEvent>> {
    if rows == [] then [] else Expand(rows[..|rows| - 1]) + Slots(rows[|rows| - 1])
  }

  function Written(s: Sink): seq<Row> {
    s.applied + s.queue
  }

  /** Everything recorded or queued, then the loss not yet written down. */
  function Account(s: Sink): seq<Option<AuditEvent>> {
    Expand(Written(s)) + Lost(s.pendingGap)
  }

  predicate WellCounted(capacity: nat, s: Sink) {
    s.depth == |s.queue| <= capacity + 1
  }

  lemma EnqueueExpands(s: Sink, row: Row)
    ensures Expand(Written(Enqueue(s, row))) == Expand(Written(s)) + Slots(row)
  {
    var rows, rows' := Written(s), Written(Enqueue(s, row));
    assert rows' == rows + [row];
    assert rows'[..|rows|] == rows;
  }

  lemma RecordAccounts(capacity: nat, s: Sink, event: AuditEvent)
    requires WellCounted(capacity, s)
    ensures WellCounted(capacity, Record(capacity, s, event))
    ensures Account(Record(capacity, s, event)) == Account(s) + Outcome(capacity, s, Call(event))
  {
    if s.depth >= capacity {
      assert Lost(s.pendingGap + 1) == Lost(s.pendingGap) + [None];
    } else {
      AcceptAccounts(s, event);
    }
  }

  lemma AcceptAccounts(s: Sink, event: AuditEvent)
    ensures var gapped := if s.pendingGap > 0 then Enqueue(s.(pendingGap := 0), Gap(s.pendingGap)) else s;
            Account(Enqueue(gapped, Event(event))) == Account(s) + [Some(event)]
  {
    var gapped := if s.pendingGap > 0 then Enqueue(s.(pendingGap := 0), Gap(s.pendingGap)) else s;
    EnqueueExpands(s.(pendingGap := 0), Gap(s.pendingGap));
    EnqueueExpands(gapped, Event(event));
    assert Expand(Written(gapped)) == Account(s);
    assert Account(Enqueue(gapped, Event(event))) == Expand(Written(gapped)) + [Some(event)] + [];
  }

  lemma DrainAccounts(s: Sink, n: nat)
    ensures var s' := Drain(s, n);
            Written(s') == Written(s)
  {
    var k := Min(n, |s.queue|);
    assert s.queue[..k] + s.queue[k..] == s.queue;
  }

  lemma StepAccounts(capacity: nat, s: Sink, step: Step)
    requires WellCounted(capacity, s)
    ensures WellCounted(capacity, After(capacity, s, step))
    ensures Account(After(capacity, s, step)) == Account(s) + Outcome(capacity, s, step)
  {
    match step
    case Call(event) => RecordAccounts(capacity, s, event);
    case Batch(n) => DrainAccounts(s, n);
  }

  /** For every run: reading the record in order with its gaps spread out, then the pending gap,
      gives every record call at its own position, and the queue stays within its bound. */
  lemma PositionalGaps(capacity: nat, steps: seq<Step>)
    ensures Account(Run(capacity, Empty(), steps)) == Calls(capacity, Empty(), steps)
    ensures Run(capacity, Empty(), steps).depth <= capacity + 1
  {
    AccountsFrom(capacity, Empty(), steps);
    assert Account(Empty()) == [];
  }

  lemma {:induction false} AccountsFrom(capacity: nat, s: Sink, steps: seq<Step>)
    requires WellCounted(capacity, s)
    ensures WellCounted(capacity, Run(capacity, s, steps))
    ensures Account(Run(capacity, s, steps)) == Account(s) + Calls(capacity, s, steps)
    decreases |steps|
  {
    if steps != [] {
      StepAccounts(capacity, s, steps[0]);
      var next := After(capacity, s, steps[0]);
      AccountsFrom(capacity, next, steps[1..]);
      assert Run(capacity, s, steps) == Run(capacity, next, steps[1..]);
      Regroup(Account(s), Outcome(capacity, s, steps[0]), Calls(capacity, next, steps[1..]));
    }
  }

  lemma Regroup(a: seq<Option<AuditEvent>>, b: seq<Option<AuditEvent>>, c: seq<Option<AuditEvent>>)
    ensures a + b + c == a + (b + c)
  {
  }

  /** The calls of a run, as they were made. */
  function Made(steps: seq<Step>): seq<AuditEvent>
    decreases |steps|
  {
    if steps == [] then []
    else (match steps[0] case Call(event) => [event] case Batch(_) => []) + Made(steps[1..])
  }

  /** So an event in the record is at the index of the call that made it, and nothing else is in
      the record. */
  lemma TrueIndex(capacity: nat, steps: seq<Step>, i: nat)
    requires i < |Account(Run(capacity, Empty(), steps))|
    ensures |Account(Run(capacity, Empty(), steps))| == |Made(steps)|
    ensures var at := Account(Run(capacity, Empty(), steps))[i];
            at == None || at == Some(Made(steps)[i])
  {
    PositionalGaps(capacity, steps);
    CallsAreMade(capacity, Empty(), steps);
  }

  lemma {:induction false} CallsAreMade(capacity: nat, s: Sink, steps: seq<Step>)
    ensures |Calls(capacity, s, steps)| == |Made(steps)|
    ensures forall i :: 0 <= i < |Made(steps)| ==>
              Calls(capacity, s, steps)[i] == None || Calls(capacity, s, steps)[i] == Some(Made(steps)[i])
    decreases |steps|
  {
    if steps != [] {
      CallsAreMade(capacity, After(capacity, s, steps[0]), steps[1..]);
    }
  }

  // ---------------------------------------------------------------------------------------
  // Any number of recording threads
  // ---------------------------------------------------------------------------------------

  /** Where a recording thread stands between the sink's separate atomic operations. */
  datatype Pc =
    | Idle
    | Dropping(event: AuditEvent)                 // saw a full queue
    | Accepting(event: AuditEvent)                // saw room
    | Holding(event: AuditEvent, gap: nat)        // took the pending gap away
    | GapCounted(event: AuditEvent, gap: nat)     // counted the gap row, not yet handed over
    | RowReady(event: AuditEvent)                 // nothing left to say before the event
    | RowCounted(event: AuditEvent)               // counted the event row, not yet handed over

  /** The shared sink, the threads, and what the callers have been through so far. */
  datatype Shared = Shared(sink: Sink, threads: seq<Pc>, dropped: nat, accepted: multiset<AuditEvent>)

  datatype Action = Begin(t: nat, event: AuditEvent) | Advance(t: nat) | WriterBatch(n: nat)

  predicate Enabled(s: Shared, a: Action) {
    match a
    case Begin(t, _) => t < |s.threads| && s.threads[t].Idle?
    case Advance(t) => t < |s.threads| && !s.threads[t].Idle?
    case WriterBatch(_) => true
  }

  /** One atomic operation of one thread, or one writer batch. */
  function Act(capacity: nat, s: Shared, a: Action): Shared
    requires Enabled(s, a)
  {
    match a
    case Begin(t, event) =>
      if s.sink.depth >= capacity then s.(threads := s.threads[t := Dropping(event)])
      else s.(threads := s.threads[t := Accepting(event)], accepted := s.accepted + multiset{event})
    case WriterBatch(n) => s.(sink := Drain(s.sink, n))
    case Advance(t) =>
      var k := s.sink;
      match s.threads[t]
      case Dropping(_) =>
        s.(sink := k.(pendingGap := k.pendingGap + 1), threads := s.threads[t := Idle], dropped := s.dropped + 1)
      case Accepting(event) =>
        s.(sink := k.(pendingGap := 0), threads := s.threads[t := Holding(event, k.pendingGap)])
      case Holding(event, gap) =>
        if gap > 0 then s.(sink := k.(depth := k.depth + 1), threads := s.threads[t := GapCounted(event, gap)])
        else s.(threads := s.threads[t := RowReady(event)])
      case GapCounted(event, gap) =>
        s.(sink := k.(queue := k.queue + [Gap(gap)]), threads := s.threads[t := RowReady(event)])
      case RowReady(event) =>
        s.(sink := k.(depth := k.depth + 1), threads := s.threads[t := RowCounted(event)])
      case RowCounted(event) =>
        s.(sink := k.(queue := k.queue + [Event(event)]), threads := s.threads[t := Idle])
      case Idle => s
  }

  /** A loss the thread has taken out of the pending gap and not written down. */
  function HeldBy(pc: Pc): nat {
    match pc
    case Holding(_, gap) => gap
    case GapCounted(_, gap) => gap
    case _ => 0
  }

  /** The accepted event the thread still carries. */
  function CarriedBy(pc: Pc): multiset<AuditEvent> {
    if pc.Idle? || pc.Dropping? then multiset{} else multiset{pc.event}
  }

  /** A row counted in the depth and not yet handed over. */
  function CountedBy(pc: Pc): nat {
    if pc.GapCounted? || pc.RowCounted? then 1 else 0
  }

  /** Rows the thread may still count without looking at the depth again. */
  function MayCountBy(pc: Pc): nat {
    match pc
    case Accepting(_) => 2
    case Holding(_, _) => 2
    case GapCounted(_, _) => 1
    case RowReady(_) => 1
    case _ => 0
  }

  function Held(threads: seq<Pc>): nat {
    if threads == [] then 0 else HeldBy(threads[0]) + Held(threads[1..])
  }

  function Carried(threads: seq<Pc>): multiset<AuditEvent> {
    if threads == [] then multiset{} else CarriedBy(threads[0]) + Carried(threads[1..])
  }

  function Counted(threads: seq<Pc>): nat {
    if threads == [] then 0 else CountedBy(threads[0]) + Counted(threads[1..])
  }

  function MayCount(threads: seq<Pc>): (n: nat)
    ensures n <= 2 * |threads|
  {
    if threads == [] then 0 else MayCountBy(threads[0]) + MayCount(threads[1..])
  }

  /** Moving one thread changes each total by that thread's own share. */
  lemma {:induction false} ThreadMoves(threads: seq<Pc>, t: nat, pc: Pc)
    requires t < |threads|
    ensures Held(threads[t := pc]) + HeldBy(threads[t]) == Held(threads) + HeldBy(pc)
    ensures Counted(threads[t := pc]) + CountedBy(threads[t]) == Counted(threads) + CountedBy(pc)
    ensures MayCount(threads[t := pc]) + MayCountBy(threads[t]) == MayCount(threads) + MayCountBy(pc)
  {
    var moved := threads[t := pc];
    if t == 0 {
      assert moved[1..] == threads[1..];
    } else {
      ThreadMoves(threads[1..], t - 1, pc);
      assert moved[1..] == threads[1..][t - 1 := pc];
    }
  }

  lemma {:induction false} EventMoves(threads: seq<Pc>, t: nat, pc: Pc)
    requires t < |threads|
    ensures Carried(threads[t := pc]) + CarriedBy(threads[t]) == Carried(threads) + CarriedBy(pc)
  {
    var moved := threads[t := pc];
    if t == 0 {
      assert moved[1..] == threads[1..];
      AddCommutes(CarriedBy(pc), Carried(threads[1..]), CarriedBy(threads[0]));
    } else {
      EventMoves(threads[1..], t - 1, pc);
      assert moved[1..] == threads[1..][t - 1 := pc];
      AddToBoth(CarriedBy(threads[0]), Carried(moved[1..]), CarriedBy(threads[t]),
                Carried(threads[1..]), CarriedBy(pc));
    }
  }

  lemma AddCommutes(a: multiset<AuditEvent>, b: multiset<AuditEvent>, c: multiset<AuditEvent>)
    ensures (a + b) + c == (c + b) + a
  {
  }

  lemma AddToBoth(x: multiset<AuditEvent>, a: multiset<AuditEvent>, b: multiset<AuditEvent>,
                  c: multiset<AuditEvent>, d: multiset<AuditEvent>)
    requires a + b == c + d
    ensures (x + a) + b == (x + c) + d
  {
    forall e ensures ((x + a) + b)[e] == ((x + c) + d)[e] {
      assert (a + b)[e] == (c + d)[e];
    }
  }

  function GapTotal(rows: seq<Row>): nat {
    if rows == [] then 0
    else GapTotal(rows[..|rows| - 1]) + (match rows[|rows| - 1] case Gap(n) => n case Event(_) => 0)
  }

  function Events(rows: seq<Row>): multiset<AuditEvent> {
    if rows == [] then multiset{}
    else
      Events(rows[..|rows| - 1])
      + (match rows[|rows| - 1] case Gap(_) => multiset{} case Event(e) => multiset{e})
  }

  lemma RowsSnoc(rows: seq<Row>, row: Row)
    ensures GapTotal(rows + [row]) == GapTotal(rows) + (match row case Gap(n) => n case Event(_) => 0)
    ensures Events(rows + [row]) == Events(rows) + (match row case Gap(_) => multiset{} case Event(e) => multiset{e})
  {
    assert (rows + [row])[..|rows|] == rows;
  }

  predicate LossesConserved(s: Shared) {
    GapTotal(Written(s.sink)) + s.sink.pendingGap + Held(s.threads) == s.dropped
  }

  predicate EventsConserved(s: Shared) {
    Events(Written(s.sink)) + Carried(s.threads) == s.accepted
  }

  predicate DepthConserved(capacity: nat, s: Shared) {
    && s.sink.depth == |s.sink.queue| + Counted(s.threads)
    && s.sink.depth + MayCount(s.threads) <= capacity + 2 * |s.threads|
  }

  /** Nothing is lost uncounted and nothing accepted goes missing, whatever the interleaving. */
  predicate Conserved(capacity: nat, s: Shared) {
    LossesConserved(s) && EventsConserved(s) && DepthConserved(capacity, s)
  }

  /** What one operation of a thread adds to the rows written. */
  function Adds(pc: Pc): seq<Row> {
    match pc
    case GapCounted(_, gap) => [Gap(gap)]
    case RowCounted(event) => [Event(event)]
    case _ => []
  }

  /** The thread's share of every total moves by exactly what the operation writes. */
  lemma AdvanceMoves(capacity: nat, s: Shared, t: nat)
    requires Enabled(s, Advance(t))
    ensures var s', pc := Act(capacity, s, Advance(t)), s.threads[t];
            && s'.threads == s.threads[t := s'.threads[t]]
            && s'.accepted == s.accepted && s'.sink.applied == s.sink.applied
            && s'.sink.queue == s.sink.queue + Adds(pc)
            && s'.sink.depth == s.sink.depth + CountedBy(s'.threads[t]) + |Adds(pc)| - CountedBy(pc)
            && s'.sink.depth + MayCountBy(s'.threads[t]) <= s.sink.depth + MayCountBy(pc)
            && CarriedBy(pc) == CarriedBy(s'.threads[t]) + (if pc.RowCounted? then multiset{pc.event} else multiset{})
            && s'.sink.pendingGap + HeldBy(s'.threads[t]) + (if pc.GapCounted? then pc.gap else 0)
               == s.sink.pendingGap + HeldBy(pc) + (s'.dropped - s.dropped)
  {
  }

  lemma AdvanceWrites(capacity: nat, s: Shared, t: nat)
    requires Enabled(s, Advance(t))
    ensures var w, w', pc := Written(s.sink), Written(Act(capacity, s, Advance(t)).sink), s.threads[t];
            && GapTotal(w') == GapTotal(w) + (if pc.GapCounted? then pc.gap else 0)
            && Events(w') == Events(w) + (if pc.RowCounted? then multiset{pc.event} else multiset{})
  {
    AdvanceMoves(capacity, s, t);
    var w, w', more := Written(s.sink), Written(Act(capacity, s, Advance(t)).sink), Adds(s.threads[t]);
    if more == [] {
      assert w' == w;
    } else {
      assert w' == w + [more[0]];
      RowsSnoc(w, more[0]);
    }
  }

  lemma AdvanceConserves(capacity: nat, s: Shared, t: nat)
    requires Enabled(s, Advance(t)) && Conserved(capacity, s)
    ensures Conserved(capacity, Act(capacity, s, Advance(t)))
  {
    var s' := Act(capacity, s, Advance(t));
    AdvanceMoves(capacity, s, t);
    AdvanceWrites(capacity, s, t);
    ThreadMoves(s.threads, t, s'.threads[t]);
    EventMoves(s.threads, t, s'.threads[t]);
    assert LossesConserved(s') && DepthConserved(capacity, s');
    CarriedAndWritten(Events(Written(s.sink)), Events(Written(s'.sink)), Carried(s.threads), Carried(s'.threads),
                      CarriedBy(s.threads[t]), CarriedBy(s'.threads[t]),
                      if s.threads[t].RowCounted? then multiset{s.threads[t].event} else multiset{});
  }

  lemma CarriedAndWritten(w: multiset<AuditEvent>, w': multiset<AuditEvent>,
                          c: multiset<AuditEvent>, c': multiset<AuditEvent>,
                          mine: multiset<AuditEvent>, mine': multiset<AuditEvent>, wrote: multiset<AuditEvent>)
    requires w' == w + wrote && mine == mine' + wrote && c' + mine == c + mine'
    ensures w' + c' == w + c
  {
    forall e ensures (w' + c')[e] == (w + c)[e] {
      assert (c' + mine)[e] == (c + mine')[e];
    }
  }

  lemma BeginConserves(capacity: nat, s: Shared, t: nat, event: AuditEvent)
    requires Enabled(s, Begin(t, event)) && Conserved(capacity, s)
    ensures Conserved(capacity, Act(capacity, s, Begin(t, event)))
  {
    var s' := Act(capacity, s, Begin(t, event));
    ThreadMoves(s.threads, t, s'.threads[t]);
    EventMoves(s.threads, t, s'.threads[t]);
    assert LossesConserved(s') && DepthConserved(capacity, s');
    assert Carried(s'.threads) == Carried(s.threads) + CarriedBy(s'.threads[t]);
  }

  lemma ActConserves(capacity: nat, s: Shared, a: Action)
    requires Enabled(s, a) && Conserved(capacity, s)
    ensures Conserved(capacity, Act(capacity, s, a))
  {
    match a
    case Begin(t, event) => BeginConserves(capacity, s, t, event);
    case Advance(t) => AdvanceConserves(capacity, s, t);
    case WriterBatch(n) => DrainAccounts(s.sink, n);
  }

  lemma ActKeepsThreads(capacity: nat, s: Shared, a: Action)
    requires Enabled(s, a)
    ensures |Act(capacity, s, a).threads| == |s.threads|
  {
  }

  predicate Possible(capacity: nat, s: Shared, actions: seq<Action>)
    decreases |actions|
  {
    actions == []
    || (Enabled(s, actions[0]) && Possible(capacity, Act(capacity, s, actions[0]), actions[1..]))
  }

  function Interleaved(capacity: nat, s: Shared, actions: seq<Action>): Shared
    requires Possible(capacity, s, actions)
    decreases |actions|
  {
    if actions == [] then s else Interleaved(capacity, Act(capacity, s, actions[0]), actions[1..])
  }

  function Idling(n: nat): Shared {
    Shared(Empty(), seq(n, _ => Idle), 0, multiset{})
  }

  predicate AllIdle(threads: seq<Pc>) {
    forall t :: 0 <= t < |threads| ==> threads[t].Idle?
  }

  /** Over every interleaving of `n` threads and the writer, down to single atomic operations:
      once all threads are idle the gap rows and the pending gap add up to exactly the events
      dropped, the event rows are exactly the events accepted, and the depth counter is the
      queue's length; at every moment it is at most `capacity + 2n`. */
  lemma EveryInterleavingConserves(capacity: nat, n: nat, actions: seq<Action>)
    requires Possible(capacity, Idling(n), actions)
    ensures var s := Interleaved(capacity, Idling(n), actions);
            && s.sink.depth <= capacity + 2 * n
            && (AllIdle(s.threads) ==>
                 && GapTotal(Written(s.sink)) + s.sink.pendingGap == s.dropped
                 && Events(Written(s.sink)) == s.accepted
                 && s.sink.depth == |s.sink.queue|)
  {
    var s := Interleaved(capacity, Idling(n), actions);
    IdleOwesNothing(Idling(n).threads);
    assert Conserved(capacity, Idling(n));
    InterleavingConserves(capacity, Idling(n), actions);
    if AllIdle(s.threads) {
      IdleOwesNothing(s.threads);
    }
  }

  lemma {:induction false} IdleOwesNothing(threads: seq<Pc>)
    requires AllIdle(threads)
    ensures Held(threads) == Counted(threads) == MayCount(threads) == 0 && Carried(threads) == multiset{}
  {
    if threads != [] {
      IdleOwesNothing(threads[1..]);
    }
  }

  lemma {:induction false} InterleavingConserves(capacity: nat, s: Shared, actions: seq<Action>)
    requires Possible(capacity, s, actions) && Conserved(capacity, s)
    ensures Conserved(capacity, Interleaved(capacity, s, actions))
    ensures |Interleaved(capacity, s, actions).threads| == |s.threads|
    decreases |actions|
  {
    if actions != [] {
      ActConserves(capacity, s, actions[0]);
      ActKeepsThreads(capacity, s, actions[0]);
      var next := Act(capacity, s, actions[0]);
      InterleavingConserves(capacity, next, actions[1..]);
      assert Interleaved(capacity, s, actions) == Interleaved(capacity, next, actions[1..]);
    }
  }

  // ---------------------------------------------------------------------------------------
  // Coalescing of repeated exchanges
  // ---------------------------------------------------------------------------------------

  datatype Sighting = Sighting(pair: Pair, now: Timestamp)

  function Seen(window: int, sightings: seq<Sighting>): map<Pair, Timestamp> {
    if sightings == [] then map[]
    else
      var last := sightings[|sightings| - 1];
      ShouldRecord(window, Seen(window, sightings[..|sightings| - 1]), last.pair, last.now).0
  }

  /** Was sighting `i` of the run recorded? */
  predicate Recorded(window: int, sightings: seq<Sighting>, i: nat)
    requires i < |sightings|
  {
    ShouldRecord(window, Seen(window, sightings[..i]), sightings[i].pair, sightings[i].now).1
  }

  lemma {:induction false} SeenWasRecorded(window: int, sightings: seq<Sighting>, pair: Pair) returns (j: nat)
    requires pair in Seen(window, sightings)
    ensures j < |sightings| && Recorded(window, sightings, j)
    ensures sightings[j] == Sighting(pair, Seen(window, sightings)[pair])
  {
    var before := sightings[..|sightings| - 1];
    var last := sightings[|sightings| - 1];
    var (seen', yes) := ShouldRecord(window, Seen(window, before), last.pair, last.now);
    if window > 0 && yes && last.pair == pair {
      j := |sightings| - 1;
    } else {
      j := SeenWasRecorded(window, before, pair);
      assert sightings[..j] == before[..j];
    }
  }

  /** Nothing is suppressed without a row: a sighting that is not recorded follows a recorded one
      of the same pair, less than a window before it. */
  lemma SuppressedHasARow(window: int, sightings: seq<Sighting>, i: nat)
    requires i < |sightings| && !Recorded(window, sightings, i)
    ensures exists j: nat :: j < i && Recorded(window, sightings, j)
                          && sightings[j].pair == sightings[i].pair
                          && sightings[i].now - sightings[j].now < window
  {
    var j := SeenWasRecorded(window, sightings[..i], sightings[i].pair);
    assert sightings[..i][..j] == sightings[..j];
    assert Recorded(window, sightings, j);
  }

  /** Recording sighting `k` forgets everything before it: the memory was full. */
  predicate Forgets(window: int, sightings: seq<Sighting>, k: nat)
    requires k < |sightings|
  {
    Recorded(window, sightings, k) && |Seen(window, sightings[..k])| >= 8_192
  }

  /** Sighting `j` is the last of its pair recorded before `i`, and is not forgotten by then. */
  ghost predicate Remembered(window: int, sightings: seq<Sighting>, j: nat, i: nat)
    requires j < i <= |sightings|
  {
    && Recorded(window, sightings, j)
    && forall k: nat {:trigger Recorded(window, sightings, k)} :: j < k < i && Recorded(window, sightings, k) ==>
         sightings[k].pair != sightings[j].pair && !Forgets(window, sightings, k)
  }

  /** What is remembered early on does not depend on what comes later. */
  lemma RememberedOfPrefix(window: int, sightings: seq<Sighting>, n: nat, j: nat, i: nat)
    requires j < i <= n <= |sightings|
    ensures Remembered(window, sightings[..n], j, i) <==> Remembered(window, sightings, j, i)
  {
    forall k: nat | k < n
      ensures Recorded(window, sightings[..n], k) == Recorded(window, sightings, k)
      ensures Forgets(window, sightings[..n], k) == Forgets(window, sightings, k)
    {
      assert sightings[..n][..k] == sightings[..k];
    }
  }

  /** The memory holds, for each pair, its last recorded sighting that is not forgotten. */
  lemma {:induction false} SeenIsExact(window: int, sightings: seq<Sighting>, j: nat)
    requires window > 0 && j < |sightings|
    ensures Remembered(window, sightings, j, |sightings|) <==>
              sightings[j].pair in Seen(window, sightings) && Recorded(window, sightings, j)
              && forall k: nat {:trigger Recorded(window, sightings, k)} ::
                   j < k < |sightings| && Recorded(window, sightings, k) ==> sightings[k].pair != sightings[j].pair
    ensures Remembered(window, sightings, j, |sightings|) ==>
              Seen(window, sightings)[sightings[j].pair] == sightings[j].now
    decreases |sightings|
  {
    var n := |sightings| - 1;
    var before, last := sightings[..n], sightings[n];
    assert sightings[..n] == before;
    assert Recorded(window, sightings, n) == ShouldRecord(window, Seen(window, before), last.pair, last.now).1;
    if j < n {
      SeenIsExact(window, before, j);
      RememberedOfPrefix(window, sightings, n, j, n);
      RecordedOfPrefix(window, sightings, n);
    }
  }

  lemma RecordedOfPrefix(window: int, sightings: seq<Sighting>, n: nat)
    requires n <= |sightings|
    ensures forall k: nat :: k < n ==> Recorded(window, sightings[..n], k) == Recorded(window, sightings, k)
  {
    forall k: nat | k < n ensures Recorded(window, sightings[..n], k) == Recorded(window, sightings, k) {
      assert sightings[..n][..k] == sightings[..k];
    }
  }

  /** A sighting is suppressed exactly if, with coalescing on, the last recorded one of its pair is less
      than a window before it and has not been forgotten since. */
  lemma SuppressedExactly(window: int, sightings: seq<Sighting>, i: nat)
    requires i < |sightings|
    ensures !Recorded(window, sightings, i) <==>
              window > 0 && exists j: nat :: j < i && sightings[j].pair == sightings[i].pair
                                             && sightings[i].now - sightings[j].now < window
                                             && Remembered(window, sightings, j, i)
  {
    var before := sightings[..i];
    if window > 0 {
      forall j: nat | j < i ensures Remembered(window, before, j, i) <==> Remembered(window, sightings, j, i) {
        RememberedOfPrefix(window, sightings, i, j, i);
      }
      if j: nat :| j < i && sightings[j].pair == sightings[i].pair && Remembered(window, sightings, j, i)
                   && sightings[i].now - sightings[j].now < window {
        SeenIsExact(window, before, j);
      }
      if !Recorded(window, sightings, i) {
        var j := LastRecorded(window, before, sightings[i].pair);
        SeenIsExact(window, before, j);
      }
    }
  }

  /** A remembered pair has a last recorded sighting. */
  lemma {:induction false} LastRecorded(window: int, sightings: seq<Sighting>, pair: Pair) returns (j: nat)
    requires pair in Seen(window, sightings)
    ensures j < |sightings| && Recorded(window, sightings, j) && sightings[j].pair == pair
    ensures forall k: nat {:trigger Recorded(window, sightings, k)} ::
              j < k < |sightings| && Recorded(window, sightings, k) ==> sightings[k].pair != pair
    decreases |sightings|
  {
    var n := |sightings| - 1;
    assert sightings[..n] == sightings[..|sightings| - 1];
    if sightings[n].pair == pair && Recorded(window, sightings, n) {
      j := n;
    } else {
      j := LastRecorded(window, sightings[..n], pair);
      RecordedOfPrefix(window, sightings, n);
    }
  }

  /** The coalescing map stays within its bound. */
  lemma {:induction false} SeenIsBounded(window: int, sightings: seq<Sighting>)
    ensures |Seen(window, sightings)| <= EXCHANGE_MAP_MAX
  {
    if sightings != [] {
      var before := sightings[..|sightings| - 1];
      SeenIsBounded(window, before);
      var last := sightings[|sightings| - 1];
      var seen, seen' := Seen(window, before), Seen(window, sightings);
      if last.pair in seen && seen' != seen && |seen| < EXCHANGE_MAP_MAX {
        assert seen'.Keys == seen.Keys;
      }
    }
  }
}
