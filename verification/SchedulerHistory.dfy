/** What a custody's state is, from what was said of it: registrations and reports, in order. */
module SchedulerHistory {
  import opened Prelude
  import opened Custody
  import opened Scheduler

  const EMPTY := Schedule(map[], [])

  // ---------------------------------------------------------------------------------------
  // What was said
  // ---------------------------------------------------------------------------------------

  /** A registration of this custody, or a report on it. */
  predicate Says(op: Op, c: CustodyId) {
    (op.Insert? || op.Restore? || op.Record?) && op.c == c
  }

  function LastWord(ops: seq<Op>, c: CustodyId): (word: Option<Op>)
    ensures word.Some? ==> Says(word.value, c)
  {
    if ops == [] then None
    else if Says(ops[|ops| - 1], c) then Some(ops[|ops| - 1])
    else LastWord(ops[..|ops| - 1], c)
  }

  /** It was restored dead, or a permanent failure was reported. */
  predicate SaysDead(op: Op, c: CustodyId) {
    Says(op, c) && ((op.Restore? && op.status.Dead?) || (op.Record? && op.outcome.Permanent?))
  }

  predicate EverDead(ops: seq<Op>, c: CustodyId) {
    exists i :: 0 <= i < |ops| && SaysDead(ops[i], c)
  }

  /** The expiry its last success, registration or restore gave it. */
  function ExpirySaid(ops: seq<Op>, c: CustodyId): Timestamp {
    if ops == [] then 0
    else
      match ops[|ops| - 1]
      case Insert(d, issuedAt, lifetime, _) =>
        if d == c then issuedAt + lifetime else ExpirySaid(ops[..|ops| - 1], c)
      case Restore(d, _, accessExp, _) => if d == c then accessExp else ExpirySaid(ops[..|ops| - 1], c)
      case Record(d, Success(lifetime), now, _) =>
        if d == c then now + lifetime else ExpirySaid(ops[..|ops| - 1], c)
      case _ => ExpirySaid(ops[..|ops| - 1], c)
  }

  /** Transient failures since its last success, registration or restore. */
  function FailsInARow(ops: seq<Op>, c: CustodyId): nat {
    if ops == [] then 0
    else
      var last, before := ops[|ops| - 1], FailsInARow(ops[..|ops| - 1], c);
      if !Says(last, c) then before
      else if last.Record? && last.outcome.Transient? then before + 1
      else if last.Record? && last.outcome.Permanent? then before
      else 0
  }

  /** When its next refresh comes, from the last thing said of it, while it is not dead. */
  function NextSaid(p: KeepalivePolicy, ops: seq<Op>, c: CustodyId): Timestamp {
    match LastWord(ops, c)
    case Some(Insert(_, issuedAt, lifetime, unit)) => NextRefreshAt(p, issuedAt, lifetime, unit)
    case Some(Restore(_, _, _, nextRefresh)) => nextRefresh
    case Some(Record(_, Success(lifetime), now, unit)) => NextRefreshAt(p, now, lifetime, unit)
    case Some(Record(_, Transient(retryAfter), now, unit)) =>
      FailedOnce(ops, c);
      now + BackoffSecs(p, Min(FailsInARow(ops, c), 0xFFFF_FFFF) - 1, retryAfter, unit)
    case _ => 0
  }

  /** Its last report came while its token was out. */
  predicate SaysDegraded(ops: seq<Op>, c: CustodyId) {
    match LastWord(ops, c)
    case Some(Record(_, Transient(_), now, _)) => now >= ExpirySaid(ops, c)
    case Some(Restore(_, status, _, _)) => status.Degraded?
    case _ => false
  }

  // ---------------------------------------------------------------------------------------
  // Runs, one operation at a time
  // ---------------------------------------------------------------------------------------

  lemma {:induction false} RunSnoc(p: KeepalivePolicy, s: Schedule, ops: seq<Op>, op: Op)
    ensures Run(p, s, ops + [op]) == Apply(p, Run(p, s, ops), op)
    decreases |ops|
  {
    if ops == [] {
      assert ops + [op] == [op] && [op][1..] == [];
    } else {
      assert (ops + [op])[0] == ops[0] && (ops + [op])[1..] == ops[1..] + [op];
      RunSnoc(p, Apply(p, s, ops[0]), ops[1..], op);
    }
  }

  /** What properness asks of one operation. */
  predicate ProperNext(f: Flights, op: Op) {
    && (op.Insert? || op.Restore? ==> op.c !in f.used)
    && (op.Record? ==> op.c in f.flying)
  }

  lemma {:induction false} ProperSnoc(p: KeepalivePolicy, s: Schedule, f: Flights, ops: seq<Op>, op: Op)
    requires Proper(p, s, f, ops + [op])
    ensures Proper(p, s, f, ops) && ProperNext(FinalFlights(p, s, f, ops), op)
    ensures FinalFlights(p, s, f, ops + [op])
         == Used(FollowAll(FinalFlights(p, s, f, ops), Shows(Run(p, s, ops), op)), op)
    decreases |ops|
  {
    if ops == [] {
      assert ops + [op] == [op] && [op][1..] == [];
    } else {
      assert (ops + [op])[0] == ops[0] && (ops + [op])[1..] == ops[1..] + [op];
      ProperSnoc(p, Apply(p, s, ops[0]), Used(FollowAll(f, Shows(s, ops[0])), ops[0]), ops[1..], op);
    }
  }

  lemma {:induction false} FollowKeepsUsed(f: Flights, es: seq<Event>)
    ensures FollowAll(f, es).used == f.used
    decreases |es|
  {
    if es != [] {
      FollowKeepsUsed(Follow(f, es[0]), es[1..]);
    }
  }

  /** A run of this kind ends where heap and map agree, and the scheduler knows who is in flight. */
  lemma EndsTracked(p: KeepalivePolicy, ops: seq<Op>)
    requires Proper(p, EMPTY, NO_FLIGHTS, ops)
    ensures Agrees(Run(p, EMPTY, ops)) && Tracks(Run(p, EMPTY, ops), FinalFlights(p, EMPTY, NO_FLIGHTS, ops))
  {
    RunTracks(p, EMPTY, NO_FLIGHTS, ops);
  }

  // ---------------------------------------------------------------------------------------
  // The state says what was said
  // ---------------------------------------------------------------------------------------

  /** The state a custody is in is the one that what was said of it gives it. */
  predicate AsSaid(p: KeepalivePolicy, ops: seq<Op>, c: CustodyId, state: CustodyState) {
    && (state.status.Dead? <==> EverDead(ops, c))
    && (EverDead(ops, c) ==> !state.refreshing && LastWord(ops, c).Some? && SaysDead(LastWord(ops, c).value, c))
    && (!EverDead(ops, c) ==> (state.status.Degraded? <==> SaysDegraded(ops, c)))
    && (!EverDead(ops, c) ==> state.nextRefresh == NextSaid(p, ops, c))
    && state.accessExp == ExpirySaid(ops, c)
    && state.failCount == Min(FailsInARow(ops, c), 0xFFFF_FFFF)
  }

  lemma LastSaid(ops: seq<Op>, op: Op, c: CustodyId)
    ensures LastWord(ops + [op], c) == if Says(op, c) then Some(op) else LastWord(ops, c)
    ensures EverDead(ops + [op], c) <==> EverDead(ops, c) || SaysDead(op, c)
    ensures !Says(op, c) ==> ExpirySaid(ops + [op], c) == ExpirySaid(ops, c)
    ensures !Says(op, c) ==> FailsInARow(ops + [op], c) == FailsInARow(ops, c)
  {
    var all := ops + [op];
    assert all[..|ops|] == ops && all[|ops|] == op;
    if i :| 0 <= i < |ops| && SaysDead(ops[i], c) {
      assert SaysDead(all[i], c);
    }
    if SaysDead(op, c) {
      assert SaysDead(all[|ops|], c);
    }
  }

  /** Nothing is said of a custody before it is registered. */
  lemma {:induction false} SaidOfRegistered(p: KeepalivePolicy, ops: seq<Op>, c: CustodyId)
    requires Proper(p, EMPTY, NO_FLIGHTS, ops)
    ensures EverDead(ops, c) ==> c in FinalFlights(p, EMPTY, NO_FLIGHTS, ops).used
    decreases |ops|
  {
    if ops != [] {
      var front, last := ops[..|ops| - 1], ops[|ops| - 1];
      assert ops == front + [last];
      ProperSnoc(p, EMPTY, NO_FLIGHTS, front, last);
      SaidOfRegistered(p, front, c);
      LastSaid(front, last, c);
      EndsTracked(p, front);
      FollowKeepsUsed(FinalFlights(p, EMPTY, NO_FLIGHTS, front), Shows(Run(p, EMPTY, front), last));
    }
  }

  /** A registration starts from scratch. */
  lemma RegisteredAsSaid(p: KeepalivePolicy, s: Schedule, ops: seq<Op>, op: Op)
    requires (op.Insert? || op.Restore?) && !EverDead(ops, op.c)
    ensures AsSaid(p, ops + [op], op.c, Apply(p, s, op).entries[op.c])
  {
    LastSaid(ops, op, op.c);
    assert (ops + [op])[..|ops|] == ops;
  }

  /** A report on a custody in flight. */
  lemma ReportedAsSaid(p: KeepalivePolicy, s: Schedule, ops: seq<Op>, op: Op)
    requires op.Record? && op.c in s.entries && s.entries[op.c].refreshing
    requires AsSaid(p, ops, op.c, s.entries[op.c])
    ensures AsSaid(p, ops + [op], op.c, Apply(p, s, op).entries[op.c])
  {
    LastSaid(ops, op, op.c);
    assert (ops + [op])[..|ops|] == ops;
  }

  /** An operation that says nothing of it. */
  lemma UnsaidStays(p: KeepalivePolicy, s: Schedule, ops: seq<Op>, op: Op, c: CustodyId)
    requires Agrees(s) && !Says(op, c) && c in Apply(p, s, op).entries
    requires c in s.entries ==> AsSaid(p, ops, c, s.entries[c])
    ensures AsSaid(p, ops + [op], c, Apply(p, s, op).entries[c])
  {
    LastSaid(ops, op, c);
    if op.Take? {
      DueSetIsExact(s, op.now);
    }
  }

  lemma {:induction false} RunAsSaid(p: KeepalivePolicy, ops: seq<Op>, c: CustodyId)
    requires Proper(p, EMPTY, NO_FLIGHTS, ops) && c in Run(p, EMPTY, ops).entries
    ensures AsSaid(p, ops, c, Run(p, EMPTY, ops).entries[c])
    decreases |ops|
  {
    if ops != [] {
      var front, last := ops[..|ops| - 1], ops[|ops| - 1];
      assert ops == front + [last];
      var s, f := Run(p, EMPTY, front), FinalFlights(p, EMPTY, NO_FLIGHTS, front);
      ProperSnoc(p, EMPTY, NO_FLIGHTS, front, last);
      RunSnoc(p, EMPTY, front, last);
      EndsTracked(p, front);
      SaidOfRegistered(p, front, c);
      if c in s.entries {
        RunAsSaid(p, front, c);
      }
      if !Says(last, c) {
        UnsaidStays(p, s, front, last, c);
      } else if last.Record? {
        ReportedAsSaid(p, s, front, last);
      } else {
        RegisteredAsSaid(p, s, front, last);
      }
    }
  }

  /** When a registered custody is dead, degraded or well, over every run with fresh identifiers and
      results recorded only for dispatched custodies. Dead: exactly if it was restored dead or a permanent
      failure was ever reported. Otherwise degraded: exactly if the last thing said of it was a transient
      failure at or past the expiry it had been given, or that it was restored degraded. Otherwise well. */
  lemma StatusIsAsSaid(p: KeepalivePolicy, ops: seq<Op>, c: CustodyId)
    requires Proper(p, EMPTY, NO_FLIGHTS, ops) && c in Run(p, EMPTY, ops).entries
    ensures var status := Run(p, EMPTY, ops).entries[c].status;
            && (status.Dead? <==> EverDead(ops, c))
            && (status.Degraded? <==> !EverDead(ops, c) && SaysDegraded(ops, c))
            && (status.Ok? <==> !EverDead(ops, c) && !SaysDegraded(ops, c))
  {
    RunAsSaid(p, ops, c);
  }

  /** When it is taken: exactly if it is not in flight, was never said to be dead, and the date that
      follows from the last thing said of it has come. */
  lemma TakenAsSaid(p: KeepalivePolicy, ops: seq<Op>, c: CustodyId, now: Timestamp)
    requires Proper(p, EMPTY, NO_FLIGHTS, ops) && c in Run(p, EMPTY, ops).entries
    ensures c in TakeDue(Run(p, EMPTY, ops), now).1 <==>
              && c !in FinalFlights(p, EMPTY, NO_FLIGHTS, ops).flying
              && !EverDead(ops, c) && NextSaid(p, ops, c) <= now
  {
    RunAsSaid(p, ops, c);
    EndsTracked(p, ops);
    NeverStarved(p, ops, now, c);
  }

  /** A custody that failed for a while is tried again within the maximum backoff. */
  lemma TransientIsRetried(p: KeepalivePolicy, ops: seq<Op>, c: CustodyId, now: Timestamp)
    requires Proper(p, EMPTY, NO_FLIGHTS, ops) && c in Run(p, EMPTY, ops).entries
    requires c !in FinalFlights(p, EMPTY, NO_FLIGHTS, ops).flying
    requires var word := LastWord(ops, c);
             && word.Some? && word.value.Record? && word.value.outcome.Transient? && Unit(word.value.unit)
             && now >= word.value.now + Max(p.maxBackoffSecs, 1)
    ensures c in TakeDue(Run(p, EMPTY, ops), now).1
  {
    RunAsSaid(p, ops, c);
    TakenAsSaid(p, ops, c, now);
    var word := LastWord(ops, c).value;
    FailedOnce(ops, c);
    BackoffIsCapped(p, Min(FailsInARow(ops, c), 0xFFFF_FFFF) - 1, word.outcome.retryAfterSecs, word.unit);
  }

  lemma {:induction false} FailedOnce(ops: seq<Op>, c: CustodyId)
    requires var word := LastWord(ops, c); word.Some? && word.value.Record? && word.value.outcome.Transient?
    ensures FailsInARow(ops, c) >= 1
  {
    if !Says(ops[|ops| - 1], c) {
      FailedOnce(ops[..|ops| - 1], c);
    }
  }
}
