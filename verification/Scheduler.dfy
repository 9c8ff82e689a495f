/** The keepalive scheduling core: a heap with lazily deleted items that must agree with a map of
    custody states. */
module Scheduler {
  import opened Prelude
  import opened Custody

  datatype KeepalivePolicy = KeepalivePolicy(
    leadFraction: real,
    jitterFraction: real,
    baseBackoffSecs: nat,
    maxBackoffSecs: nat,
    maxConcurrent: nat,
    onUpstreamRevoked: RevocationPolicy)

  datatype RefreshOutcome =
    | Success(lifetimeSecs: nat)
    | Transient(retryAfterSecs: Option<nat>)
    | Permanent

  datatype CustodyState = CustodyState(
    status: CustodyStatus,
    accessExp: Timestamp,
    nextRefresh: Timestamp,
    failCount: nat,
    refreshing: bool)

  /** A heap item. The heap is a min-heap on time, then custody. */
  datatype Item = Item(at: Timestamp, custody: CustodyId)

  /** `due` lists the heap's items in the order it would pop them. */
  datatype Schedule = Schedule(entries: map<CustodyId, CustodyState>, due: seq<Item>)

  const U64_MAX: nat := 0xFFFF_FFFF_FFFF_FFFF
  const U32_MAX: nat := 0xFFFF_FFFF

  // ---------------------------------------------------------------------------------------
  // Delays. `unit` is the jitter source's draw from [0, 1).
  // ---------------------------------------------------------------------------------------

  predicate Unit(unit: real) {
    0.0 <= unit < 1.0
  }

  function NextRefreshAt(p: KeepalivePolicy, issuedAt: Timestamp, lifetimeSecs: nat, unit: real): Timestamp {
    var lead := lifetimeSecs as real * p.leadFraction;
    var displacement := (unit * 2.0 - 1.0) * p.jitterFraction * lead;
    var delay := if lead + displacement >= 1.0 then lead + displacement else 1.0;
    issuedAt + delay.Floor
  }

  function Pow2(n: nat): nat {
    if n == 0 then 1 else 2 * Pow2(n - 1)
  }

  /** The exponential curve before jitter. */
  function Curve(p: KeepalivePolicy, failCount: nat): int {
    Min(Min(p.baseBackoffSecs * Pow2(Min(failCount, 16)), U64_MAX), p.maxBackoffSecs)
  }

  function BackoffSecs(p: KeepalivePolicy, failCount: nat, retryAfter: Option<nat>, unit: real): int {
    match retryAfter
    case Some(secs) => Min(secs, p.maxBackoffSecs)
    case None =>
      Max((Curve(p, failCount) as real * unit).Floor, 1)
  }

  // ---------------------------------------------------------------------------------------
  // Transitions
  // ---------------------------------------------------------------------------------------

  predicate Less(a: Item, b: Item) {
    a.at < b.at || (a.at == b.at && a.custody < b.custody)
  }

  function Push(due: seq<Item>, item: Item): seq<Item> {
    if due == [] || !Less(due[0], item) then [item] + due else [due[0]] + Push(due[1..], item)
  }

  function Scheduled(s: Schedule, c: CustodyId, state: CustodyState): Schedule {
    Schedule(s.entries[c := state], Push(s.due, Item(state.nextRefresh, c)))
  }

  function Inserted(p: KeepalivePolicy, s: Schedule, c: CustodyId, issuedAt: Timestamp, lifetimeSecs: nat,
                    unit: real): Schedule {
    Scheduled(s, c, CustodyState(Ok, issuedAt + lifetimeSecs, NextRefreshAt(p, issuedAt, lifetimeSecs, unit), 0, false))
  }

  function Restored(s: Schedule, c: CustodyId, status: CustodyStatus, accessExp: Timestamp,
                    nextRefresh: Timestamp): Schedule {
    Scheduled(s, c, CustodyState(status, accessExp, nextRefresh, 0, false))
  }

  function Removed(s: Schedule, c: CustodyId): Schedule {
    s.(entries := s.entries - {c})
  }

  /** Due at `now` and free to be dispatched. */
  predicate Ready(s: Schedule, c: CustodyId, now: Timestamp) {
    && c in s.entries
    && s.entries[c].nextRefresh <= now
    && !s.entries[c].refreshing
    && !s.entries[c].status.Dead?
  }

  function Flying(s: Schedule, c: CustodyId): Schedule
    requires c in s.entries
  {
    s.(entries := s.entries[c := s.entries[c].(refreshing := true)])
  }

  function TakeDue(s: Schedule, now: Timestamp): (Schedule, seq<CustodyId>)
    decreases |s.due|
  {
    if s.due == [] || s.due[0].at > now then (s, [])
    else
      var c := s.due[0].custody;
      var popped := s.(due := s.due[1..]);
      if Ready(popped, c, now) then
        var (rest, ready) := TakeDue(Flying(popped, c), now);
        (rest, [c] + ready)
      else TakeDue(popped, now)
  }

  /** The state an attempt's result leaves a custody in. */
  function Settled(p: KeepalivePolicy, state: CustodyState, outcome: RefreshOutcome, now: Timestamp,
                   unit: real): CustodyState {
    match outcome
    case Success(lifetime) =>
      CustodyState(Ok, now + lifetime, NextRefreshAt(p, now, lifetime, unit), 0, false)
    case Transient(retryAfter) =>
      var fails := Min(state.failCount + 1, U32_MAX);
      CustodyState(if now >= state.accessExp then Degraded else Ok, state.accessExp,
                   now + BackoffSecs(p, fails - 1, retryAfter, unit), fails, false)
    case Permanent => state.(status := Dead, nextRefresh := now, refreshing := false)
  }

  function Recorded(p: KeepalivePolicy, s: Schedule, c: CustodyId, outcome: RefreshOutcome, now: Timestamp,
                    unit: real): Schedule {
    if c !in s.entries then s
    else
      var state := Settled(p, s.entries[c], outcome, now, unit);
      if outcome.Permanent? then s.(entries := s.entries[c := state]) else Scheduled(s, c, state)
  }

  class Scheduler {
    const policy: KeepalivePolicy
    var entries: map<CustodyId, CustodyState>
    var due: seq<Item>

    ghost function View(): Schedule
      reads this
    {
      Schedule(entries, due)
    }

    constructor (policy: KeepalivePolicy)
      ensures this.policy == policy && View() == Schedule(map[], [])
    {
      this.policy := policy;
      entries, due := map[], [];
    }

    method Insert(c: CustodyId, issuedAt: Timestamp, lifetimeSecs: nat, unit: real)
      modifies this
      ensures View() == Inserted(policy, old(View()), c, issuedAt, lifetimeSecs, unit)
    {
      var nextRefresh := NextRefreshAt(policy, issuedAt, lifetimeSecs, unit);
      entries := entries[c := CustodyState(Ok, issuedAt + lifetimeSecs, nextRefresh, 0, false)];
      due := Push(due, Item(nextRefresh, c));
    }

    method InsertRestored(c: CustodyId, status: CustodyStatus, accessExp: Timestamp, nextRefresh: Timestamp)
      modifies this
      ensures View() == Restored(old(View()), c, status, accessExp, nextRefresh)
    {
      entries := entries[c := CustodyState(status, accessExp, nextRefresh, 0, false)];
      due := Push(due, Item(nextRefresh, c));
    }

    /** The heap keeps a stale item; `Take` drops items with no state. */
    method Remove(c: CustodyId)
      modifies this
      ensures View() == Removed(old(View()), c)
    {
      entries := entries - {c};
    }

    method Take(now: Timestamp) returns (ready: seq<CustodyId>)
      modifies this
      ensures (View(), ready) == TakeDue(old(View()), now)
    {
      ready := [];
      ghost var goal := TakeDue(View(), now);
      while due != [] && due[0].at <= now
        invariant TakeDue(View(), now).0 == goal.0
        invariant ready + TakeDue(View(), now).1 == goal.1
        decreases |due|
      {
        var c := due[0].custody;
        due := due[1..];
        if c !in entries {
          continue;
        }
        var state := entries[c];
        if state.nextRefresh > now {
          continue;
        }
        if state.refreshing || state.status.Dead? {
          continue;
        }
        entries := entries[c := state.(refreshing := true)];
        ready := ready + [c];
      }
      assert ready + [] == ready;
    }

    /** Apply the result of an attempt and reschedule; the status the custody now has. */
    method Record(c: CustodyId, outcome: RefreshOutcome, now: Timestamp, unit: real)
        returns (status: Option<CustodyStatus>)
      modifies this
      ensures View() == Recorded(policy, old(View()), c, outcome, now, unit)
      ensures status == if c in entries then Some(entries[c].status) else None
    {
      if c !in entries {
        return None;
      }
      var state := entries[c].(refreshing := false);
      var next;
      match outcome {
        case Success(lifetime) =>
          state := state.(status := Ok, failCount := 0, accessExp := now + lifetime);
          next := NextRefreshAt(policy, now, lifetime, unit);
        case Transient(retryAfter) =>
          state := state.(failCount := Min(state.failCount + 1, U32_MAX));
          state := state.(status := if now >= state.accessExp then Degraded else Ok);
          next := now + BackoffSecs(policy, state.failCount - 1, retryAfter, unit);
        case Permanent =>
          state := state.(status := Dead, nextRefresh := now);
          entries := entries[c := state];
          return Some(Dead);
      }
      state := state.(nextRefresh := next);
      entries := entries[c := state];
      due := Push(due, Item(next, c));
      status := Some(state.status);
    }
  }

  // ---------------------------------------------------------------------------------------
  // The heap agrees with the map
  // ---------------------------------------------------------------------------------------

  predicate Sorted(due: seq<Item>) {
    forall i, j :: 0 <= i < j < |due| ==> !Less(due[j], due[i])
  }

  /** Every custody neither in flight nor dead keeps an item at its own next refresh. */
  predicate Covered(s: Schedule) {
    forall c :: c in s.entries && !s.entries[c].refreshing && !s.entries[c].status.Dead? ==>
      Item(s.entries[c].nextRefresh, c) in s.due
  }

  predicate Agrees(s: Schedule) {
    Sorted(s.due) && Covered(s)
  }

  lemma {:induction false} PushKeepsSorted(due: seq<Item>, item: Item)
    requires Sorted(due)
    ensures Sorted(Push(due, item))
    ensures forall x :: x in Push(due, item) <==> x in due || x == item
  {
    if due != [] && Less(due[0], item) {
      PushKeepsSorted(due[1..], item);
      var rest := Push(due[1..], item);
      forall j | 0 <= j < |rest| ensures !Less(rest[j], due[0]) {
        assert rest[j] in rest;
      }
    }
  }

  lemma ScheduledAgrees(s: Schedule, c: CustodyId, state: CustodyState)
    requires Agrees(s)
    ensures Agrees(Scheduled(s, c, state))
  {
    PushKeepsSorted(s.due, Item(state.nextRefresh, c));
  }

  /** The position of a custody's first item in pop order. */
  function FirstItem(due: seq<Item>, c: CustodyId): nat {
    if due == [] || due[0].custody == c then 0 else 1 + FirstItem(due[1..], c)
  }

  predicate InHeapOrder(due: seq<Item>, ready: seq<CustodyId>) {
    forall i, j :: 0 <= i < j < |ready| ==> FirstItem(due, ready[i]) < FirstItem(due, ready[j])
  }

  /** `take_due` returns exactly the custodies due, not in flight and not dead, each once and in
      the order of their first heap items, whatever stale or orphaned items the heap holds; it
      marks those and only those in flight, and heap and map still agree. */
  lemma {:induction false} DueSetIsExact(s: Schedule, now: Timestamp)
    requires Agrees(s)
    ensures var (s', ready) := TakeDue(s, now);
            && Agrees(s')
            && (forall c :: c in ready <==> Ready(s, c, now))
            && InHeapOrder(s.due, ready)
            && s'.entries.Keys == s.entries.Keys
            && (forall c :: c in s.entries ==>
                 s'.entries[c] == if c in ready then s.entries[c].(refreshing := true) else s.entries[c])
    decreases |s.due|
  {
    if s.due == [] || s.due[0].at > now {
      NothingDue(s, now);
    } else {
      var c := s.due[0].custody;
      var popped := s.(due := s.due[1..]);
      var next := if Ready(popped, c, now) then Flying(popped, c) else popped;
      PopAgrees(s, now);
      DueSetIsExact(next, now);
      var ready := TakeDue(next, now).1;
      forall d | d in ready ensures FirstItem(s.due, d) == 1 + FirstItem(next.due, d) && d != c {
        assert Ready(next, d, now);
      }
    }
  }

  lemma NothingDue(s: Schedule, now: Timestamp)
    requires Agrees(s) && (s.due == [] || s.due[0].at > now)
    ensures forall c :: !Ready(s, c, now)
  {
    if s.due != [] {
      forall c | c in s.entries && !s.entries[c].refreshing && !s.entries[c].status.Dead?
        ensures s.entries[c].nextRefresh > now
      {
        var i :| 0 <= i < |s.due| && s.due[i] == Item(s.entries[c].nextRefresh, c);
        if i > 0 {
          assert !Less(s.due[i], s.due[0]);
        }
      }
    }
  }

  /** Popping a due item drops nothing anyone is waiting on. */
  lemma PopAgrees(s: Schedule, now: Timestamp)
    requires Agrees(s) && s.due != [] && s.due[0].at <= now
    ensures var c := s.due[0].custody;
            var popped := s.(due := s.due[1..]);
            Agrees(if Ready(popped, c, now) then Flying(popped, c) else popped)
  {
    var c := s.due[0].custody;
    var popped := s.(due := s.due[1..]);
    var next := if Ready(popped, c, now) then Flying(popped, c) else popped;
    forall d | d in next.entries && !next.entries[d].refreshing && !next.entries[d].status.Dead?
      ensures Item(next.entries[d].nextRefresh, d) in next.due
    {
      var item := Item(s.entries[d].nextRefresh, d);
      assert item in s.due;
      var i :| 0 <= i < |s.due| && s.due[i] == item;
      if i > 0 {
        assert next.due[i - 1] == item;
      }
    }
  }

  // ---------------------------------------------------------------------------------------
  // Runs
  // ---------------------------------------------------------------------------------------

  datatype Op =
    | Insert(c: CustodyId, issuedAt: Timestamp, lifetimeSecs: nat, unit: real)
    | Restore(c: CustodyId, status: CustodyStatus, accessExp: Timestamp, nextRefresh: Timestamp)
    | Remove(c: CustodyId)
    | Take(now: Timestamp)
    | Record(c: CustodyId, outcome: RefreshOutcome, now: Timestamp, unit: real)

  function Apply(p: KeepalivePolicy, s: Schedule, op: Op): Schedule {
    match op
    case Insert(c, issuedAt, lifetime, unit) => Inserted(p, s, c, issuedAt, lifetime, unit)
    case Restore(c, status, accessExp, nextRefresh) => Restored(s, c, status, accessExp, nextRefresh)
    case Remove(c) => Removed(s, c)
    case Take(now) => TakeDue(s, now).0
    case Record(c, outcome, now, unit) => Recorded(p, s, c, outcome, now, unit)
  }

  /** Every operation keeps the heap in agreement with the map. */
  lemma ApplyAgrees(p: KeepalivePolicy, s: Schedule, op: Op)
    requires Agrees(s)
    ensures Agrees(Apply(p, s, op))
  {
    match op
    case Insert(c, issuedAt, lifetime, unit) =>
      ScheduledAgrees(s, c,
                      CustodyState(Ok, issuedAt + lifetime, NextRefreshAt(p, issuedAt, lifetime, unit), 0, false));
    case Restore(c, status, accessExp, nextRefresh) =>
      ScheduledAgrees(s, c, CustodyState(status, accessExp, nextRefresh, 0, false));
    case Remove(c) =>
    case Take(now) => DueSetIsExact(s, now);
    case Record(c, outcome, now, unit) =>
      if c in s.entries && !outcome.Permanent? {
        ScheduledAgrees(s, c, Settled(p, s.entries[c], outcome, now, unit));
      }
  }

  lemma {:induction false} RunAgrees(p: KeepalivePolicy, s: Schedule, ops: seq<Op>)
    requires Agrees(s)
    ensures Agrees(Run(p, s, ops))
    decreases |ops|
  {
    if ops != [] {
      ApplyAgrees(p, s, ops[0]);
      RunAgrees(p, Apply(p, s, ops[0]), ops[1..]);
    }
  }

  /** After any run whatever, a custody is taken at `now` exactly when it is registered, due,
      not in flight and not dead: none is starved and none is taken early. */
  lemma NeverStarved(p: KeepalivePolicy, ops: seq<Op>, now: Timestamp, c: CustodyId)
    ensures var s := Run(p, Schedule(map[], []), ops);
            c in TakeDue(s, now).1 <==> Ready(s, c, now)
  {
    RunAgrees(p, Schedule(map[], []), ops);
    DueSetIsExact(Run(p, Schedule(map[], []), ops), now);
  }

  /** What a run shows from outside. */
  datatype Event = Dispatched(c: CustodyId) | Reported(c: CustodyId, permanent: bool)

  function Dispatches(ready: seq<CustodyId>): seq<Event> {
    if ready == [] then [] else [Dispatched(ready[0])] + Dispatches(ready[1..])
  }

  function Shows(s: Schedule, op: Op): seq<Event> {
    match op
    case Take(now) => Dispatches(TakeDue(s, now).1)
    case Record(c, outcome, _, _) => [Reported(c, outcome.Permanent?)]
    case _ => []
  }

  /** Identifiers ever registered, dispatched and not yet reported, and reported permanent. */
  datatype Flights = Flights(used: set<CustodyId>, flying: set<CustodyId>, gone: set<CustodyId>)

  function Follow(f: Flights, e: Event): Flights {
    match e
    case Dispatched(c) => f.(flying := f.flying + {c})
    case Reported(c, permanent) =>
      f.(flying := f.flying - {c}, gone := if permanent then f.gone + {c} else f.gone)
  }

  function FollowAll(f: Flights, es: seq<Event>): Flights
    decreases |es|
  {
    if es == [] then f else FollowAll(Follow(f, es[0]), es[1..])
  }

  function Used(f: Flights, op: Op): Flights {
    match op
    case Insert(c, _, _, _) => f.(used := f.used + {c})
    case Restore(c, _, _, _) => f.(used := f.used + {c})
    case _ => f
  }

  /** Identifiers are fresh, and a result is recorded only for a custody that was dispatched. */
  predicate Proper(p: KeepalivePolicy, s: Schedule, f: Flights, ops: seq<Op>)
    decreases |ops|
  {
    ops == []
    || (&& (ops[0].Insert? || ops[0].Restore? ==> ops[0].c !in f.used)
        && (ops[0].Record? ==> ops[0].c in f.flying)
        && Proper(p, Apply(p, s, ops[0]), Used(FollowAll(f, Shows(s, ops[0])), ops[0]), ops[1..]))
  }

  function Trace(p: KeepalivePolicy, s: Schedule, ops: seq<Op>): seq<Event>
    decreases |ops|
  {
    if ops == [] then [] else Shows(s, ops[0]) + Trace(p, Apply(p, s, ops[0]), ops[1..])
  }

  function Run(p: KeepalivePolicy, s: Schedule, ops: seq<Op>): Schedule
    decreases |ops|
  {
    if ops == [] then s else Run(p, Apply(p, s, ops[0]), ops[1..])
  }

  /** The scheduler knows who is in flight and who is gone. */
  predicate Tracks(s: Schedule, f: Flights) {
    && s.entries.Keys <= f.used && f.flying <= f.used && f.gone <= f.used
    && f.flying !! f.gone
    && (forall c :: c in s.entries ==> (s.entries[c].refreshing <==> c in f.flying))
    && (forall c :: c in s.entries && c in f.gone ==> s.entries[c].status.Dead?)
  }

  /** No custody is dispatched while in flight or once gone. */
  predicate Disciplined(f: Flights, es: seq<Event>)
    decreases |es|
  {
    es == []
    || (&& (es[0].Dispatched? ==> es[0].c !in f.flying && es[0].c !in f.gone)
        && Disciplined(Follow(f, es[0]), es[1..]))
  }

  lemma {:induction false} DisciplinedAppend(f: Flights, a: seq<Event>, b: seq<Event>)
    requires Disciplined(f, a) && Disciplined(FollowAll(f, a), b)
    ensures Disciplined(f, a + b)
    decreases |a|
  {
    if a == [] {
      assert a + b == b;
    } else {
      assert (a + b)[0] == a[0] && (a + b)[1..] == a[1..] + b;
      DisciplinedAppend(Follow(f, a[0]), a[1..], b);
    }
  }

  lemma {:induction false} DispatchesFollow(f: Flights, ready: seq<CustodyId>)
    requires forall i :: 0 <= i < |ready| ==> ready[i] !in f.flying && ready[i] !in f.gone
    requires forall i, j :: 0 <= i < j < |ready| ==> ready[i] != ready[j]
    ensures Disciplined(f, Dispatches(ready))
    ensures FollowAll(f, Dispatches(ready)) == f.(flying := f.flying + set c | c in ready)
    decreases |ready|
  {
    if ready == [] {
      assert f.flying + (set c | c in ready) == f.flying;
    } else {
      var f' := Follow(f, Dispatched(ready[0]));
      DispatchesFollow(f', ready[1..]);
      assert Dispatches(ready)[1..] == Dispatches(ready[1..]);
      assert f'.flying + (set c | c in ready[1..]) == f.flying + (set c | c in ready);
    }
  }

  lemma TakeTracks(s: Schedule, f: Flights, now: Timestamp)
    requires Agrees(s) && Tracks(s, f)
    ensures Disciplined(f, Shows(s, Take(now)))
    ensures Tracks(TakeDue(s, now).0, FollowAll(f, Shows(s, Take(now))))
  {
    DueSetIsExact(s, now);
    var ready := TakeDue(s, now).1;
    forall i | 0 <= i < |ready| ensures ready[i] !in f.flying && ready[i] !in f.gone {
      assert Ready(s, ready[i], now);
    }
    DispatchesFollow(f, ready);
  }

  lemma StepTracks(p: KeepalivePolicy, s: Schedule, f: Flights, op: Op)
    requires Agrees(s) && Tracks(s, f)
    requires op.Insert? || op.Restore? ==> op.c !in f.used
    requires op.Record? ==> op.c in f.flying
    ensures Disciplined(f, Shows(s, op))
    ensures Tracks(Apply(p, s, op), Used(FollowAll(f, Shows(s, op)), op))
  {
    match op
    case Take(now) => TakeTracks(s, f, now);
    case Record(c, outcome, now, unit) =>
      var f' := Follow(f, Reported(c, outcome.Permanent?));
      assert FollowAll(f, Shows(s, op)) == FollowAll(f', []) == f';
    case _ =>
  }

  lemma {:induction false} RunTracks(p: KeepalivePolicy, s: Schedule, f: Flights, ops: seq<Op>)
    requires Agrees(s) && Tracks(s, f) && Proper(p, s, f, ops)
    ensures Disciplined(f, Trace(p, s, ops))
    ensures Agrees(Run(p, s, ops))
    ensures Tracks(Run(p, s, ops), FinalFlights(p, s, f, ops))
    decreases |ops|
  {
    if ops != [] {
      StepTracks(p, s, f, ops[0]);
      ApplyAgrees(p, s, ops[0]);
      var s', f' := Apply(p, s, ops[0]), Used(FollowAll(f, Shows(s, ops[0])), ops[0]);
      RunTracks(p, s', f', ops[1..]);
      DisciplineIgnoresUsed(FollowAll(f, Shows(s, ops[0])), f', Trace(p, s', ops[1..]));
      DisciplinedAppend(f, Shows(s, ops[0]), Trace(p, s', ops[1..]));
    }
  }

  function FinalFlights(p: KeepalivePolicy, s: Schedule, f: Flights, ops: seq<Op>): Flights
    decreases |ops|
  {
    if ops == [] then f
    else FinalFlights(p, Apply(p, s, ops[0]), Used(FollowAll(f, Shows(s, ops[0])), ops[0]), ops[1..])
  }

  lemma {:induction false} DisciplineIgnoresUsed(f: Flights, g: Flights, es: seq<Event>)
    requires f.flying == g.flying && f.gone == g.gone && Disciplined(g, es)
    ensures Disciplined(f, es)
    decreases |es|
  {
    if es != [] {
      DisciplineIgnoresUsed(Follow(f, es[0]), Follow(g, es[0]), es[1..]);
    }
  }

  const NO_FLIGHTS := Flights({}, {}, {})

  /** Single flight: in every run with fresh identifiers and results recorded only for dispatched
      custodies, between two dispatches of a custody its result was reported. */
  lemma SingleFlight(p: KeepalivePolicy, ops: seq<Op>, i: nat, j: nat, c: CustodyId)
    requires Proper(p, Schedule(map[], []), NO_FLIGHTS, ops)
    requires var es := Trace(p, Schedule(map[], []), ops);
             i < j < |es| && es[i] == Dispatched(c) && es[j] == Dispatched(c)
    ensures var es := Trace(p, Schedule(map[], []), ops);
            exists k :: i < k < j && es[k].Reported? && es[k].c == c
  {
    RunTracks(p, Schedule(map[], []), NO_FLIGHTS, ops);
    ReportedBetween(NO_FLIGHTS, Trace(p, Schedule(map[], []), ops), i, j, c);
  }

  lemma {:induction false} ReportedBetween(f: Flights, es: seq<Event>, i: nat, j: nat, c: CustodyId)
    requires Disciplined(f, es) && i < j < |es| && es[i] == Dispatched(c) && es[j] == Dispatched(c)
    ensures exists k :: i < k < j && es[k].Reported? && es[k].c == c
    decreases |es|
  {
    if i > 0 {
      ReportedBetween(Follow(f, es[0]), es[1..], i - 1, j - 1, c);
      var k :| i - 1 < k < j - 1 && es[1..][k].Reported? && es[1..][k].c == c;
      assert es[k + 1].Reported? && es[k + 1].c == c;
    } else {
      var k := ReportedBefore(Follow(f, es[0]), es[1..], j - 1, c);
      assert es[k + 1].Reported? && es[k + 1].c == c;
    }
  }

  lemma {:induction false} ReportedBefore(f: Flights, es: seq<Event>, j: nat, c: CustodyId) returns (k: nat)
    requires Disciplined(f, es) && c in f.flying && j < |es| && es[j] == Dispatched(c)
    ensures k < j && es[k].Reported? && es[k].c == c
    decreases |es|
  {
    if es[0].Reported? && es[0].c == c {
      k := 0;
    } else {
      k := ReportedBefore(Follow(f, es[0]), es[1..], j - 1, c);
      k := k + 1;
    }
  }

  /** Final death: once a permanent result is reported, the custody is never dispatched again,
      and while it is registered its status is Dead. */
  lemma DeadIsFinal(p: KeepalivePolicy, ops: seq<Op>, i: nat, j: nat, c: CustodyId)
    requires Proper(p, Schedule(map[], []), NO_FLIGHTS, ops)
    requires var es := Trace(p, Schedule(map[], []), ops);
             i < j < |es| && es[i] == Reported(c, true)
    ensures var es, s := Trace(p, Schedule(map[], []), ops), Run(p, Schedule(map[], []), ops);
            && es[j] != Dispatched(c)
            && (c in s.entries ==> s.entries[c].status.Dead?)
  {
    var empty := Schedule(map[], []);
    RunTracks(p, empty, NO_FLIGHTS, ops);
    NeverAgain(NO_FLIGHTS, Trace(p, empty, ops), i, j, c);
    GoneStays(p, empty, NO_FLIGHTS, ops, i, c);
  }

  lemma {:induction false} NeverAgain(f: Flights, es: seq<Event>, i: nat, j: nat, c: CustodyId)
    requires Disciplined(f, es) && j < |es|
    requires c in f.gone || (i < j && es[i] == Reported(c, true))
    ensures es[j] != Dispatched(c)
    decreases |es|
  {
    if j > 0 {
      NeverAgain(Follow(f, es[0]), es[1..], if i > 0 then i - 1 else 0, j - 1, c);
    }
  }

  lemma {:induction false} GoneStays(p: KeepalivePolicy, s: Schedule, f: Flights, ops: seq<Op>, i: nat, c: CustodyId)
    requires c in f.gone || (i < |Trace(p, s, ops)| && Trace(p, s, ops)[i] == Reported(c, true))
    ensures c in FinalFlights(p, s, f, ops).gone
    decreases |ops|
  {
    if ops != [] {
      var es := Shows(s, ops[0]);
      FollowKeepsGone(f, es, i, c);
      var rest := Trace(p, Apply(p, s, ops[0]), ops[1..]);
      GoneStays(p, Apply(p, s, ops[0]), Used(FollowAll(f, es), ops[0]), ops[1..],
                if i >= |es| then i - |es| else 0, c);
    }
  }

  lemma {:induction false} FollowKeepsGone(f: Flights, es: seq<Event>, i: nat, c: CustodyId)
    ensures c in f.gone || (i < |es| && es[i] == Reported(c, true)) ==> c in FollowAll(f, es).gone
    decreases |es|
  {
    if es != [] {
      FollowKeepsGone(Follow(f, es[0]), es[1..], if i > 0 then i - 1 else 0, c);
    }
  }

  // ---------------------------------------------------------------------------------------
  // Delays
  // ---------------------------------------------------------------------------------------

  predicate ValidPolicy(p: KeepalivePolicy) {
    0.0 <= p.leadFraction && 0.0 <= p.jitterFraction <= 1.0
  }

  lemma MulMonotone(a: real, b: real, c: real)
    requires a <= b && 0.0 <= c
    ensures a * c <= b * c
  {
  }

  lemma PowPositive(n: nat)
    ensures Pow2(n) >= 1
  {
  }

  /** A refresh is scheduled at least a second out and within the jittered lead; with
      `(1 + jitter) * lead_fraction <= 1` that is no later than the token's own expiry. */
  lemma RefreshIsInTime(p: KeepalivePolicy, issuedAt: Timestamp, lifetime: nat, unit: real)
    requires ValidPolicy(p) && Unit(unit)
    ensures issuedAt + 1 <= NextRefreshAt(p, issuedAt, lifetime, unit)
    ensures lifetime >= 1 && (1.0 + p.jitterFraction) * p.leadFraction <= 1.0 ==>
              NextRefreshAt(p, issuedAt, lifetime, unit) <= issuedAt + lifetime
  {
    var life := lifetime as real;
    var lead := life * p.leadFraction;
    MulMonotone(0.0, life, p.leadFraction);
    MulMonotone(unit * 2.0 - 1.0, 1.0, p.jitterFraction);
    MulMonotone((unit * 2.0 - 1.0) * p.jitterFraction, p.jitterFraction, lead);
    var displacement := (unit * 2.0 - 1.0) * p.jitterFraction * lead;
    assert displacement <= p.jitterFraction * lead;
    if lifetime >= 1 && (1.0 + p.jitterFraction) * p.leadFraction <= 1.0 {
      MulMonotone((1.0 + p.jitterFraction) * p.leadFraction, 1.0, life);
      assert (1.0 + p.jitterFraction) * p.leadFraction * life == lead + p.jitterFraction * lead;
    }
  }

  /** How long after its issue a token is refreshed, before jitter; and how far jitter may move that. */
  function LeadTime(p: KeepalivePolicy, lifetime: nat): real {
    lifetime as real * p.leadFraction
  }

  function Swing(p: KeepalivePolicy, lifetime: nat): real {
    p.jitterFraction * LeadTime(p, lifetime)
  }

  function Share(part: real, swing: real): real {
    part * swing
  }

  function Displacement(swing: real, unit: real): real {
    Share(unit * 2.0 - 1.0, swing)
  }

  lemma DelayIs(p: KeepalivePolicy, issuedAt: Timestamp, lifetime: nat, unit: real)
    ensures NextRefreshAt(p, issuedAt, lifetime, unit)
         == issuedAt + Max((LeadTime(p, lifetime) + Displacement(Swing(p, lifetime), unit)).Floor, 1)
  {
    var lead := LeadTime(p, lifetime);
    assert (unit * 2.0 - 1.0) * p.jitterFraction * lead == (unit * 2.0 - 1.0) * (p.jitterFraction * lead);
  }

  lemma SwingIsPositive(p: KeepalivePolicy, lifetime: nat)
    requires ValidPolicy(p)
    ensures 0.0 <= Swing(p, lifetime)
  {
    MulMonotone(0.0, lifetime as real, p.leadFraction);
    MulMonotone(0.0, p.jitterFraction, LeadTime(p, lifetime));
  }

  lemma DisplacementIsBounded(swing: real, unit: real, higher: real)
    requires 0.0 <= swing && Unit(unit) && Unit(higher) && unit <= higher
    ensures -swing <= Displacement(swing, unit) <= Displacement(swing, higher) <= swing
    ensures unit == 0.5 ==> Displacement(swing, unit) == 0.0
    ensures unit == 0.0 ==> Displacement(swing, unit) == -swing
  {
    var low, high := unit * 2.0 - 1.0, higher * 2.0 - 1.0;
    SharesInOrder(swing, -1.0, low);
    SharesInOrder(swing, low, high);
    SharesInOrder(swing, high, 1.0);
    WholeShares(swing);
  }

  lemma WholeShares(swing: real)
    ensures Share(-1.0, swing) == -swing && Share(0.0, swing) == 0.0 && Share(1.0, swing) == swing
  {
  }

  lemma SharesInOrder(swing: real, low: real, high: real)
    requires 0.0 <= swing && low <= high
    ensures Share(low, swing) <= Share(high, swing)
  {
    MulMonotone(low, high, swing);
  }

  /** A refresh comes a jittered lead after the token was issued: the lead itself at the middle draw, less
      the swing at the lowest, no later for a lower draw than for a higher, and never further off than the
      swing but for the one-second floor. */
  lemma RefreshIsJittered(p: KeepalivePolicy, issuedAt: Timestamp, lifetime: nat, unit: real, higher: real)
    requires ValidPolicy(p) && Unit(unit) && Unit(higher) && unit <= higher
    ensures var lead, swing := LeadTime(p, lifetime), Swing(p, lifetime);
            var delay := NextRefreshAt(p, issuedAt, lifetime, unit) - issuedAt;
            && (unit == 0.5 ==> delay == Max(lead.Floor, 1))
            && (unit == 0.0 ==> delay == Max((lead - swing).Floor, 1))
            && (lead - swing).Floor <= delay <= Max((lead + swing).Floor, 1)
    ensures NextRefreshAt(p, issuedAt, lifetime, unit) <= NextRefreshAt(p, issuedAt, lifetime, higher)
  {
    DelayIs(p, issuedAt, lifetime, unit);
    DelayIs(p, issuedAt, lifetime, higher);
    SwingIsPositive(p, lifetime);
    DisplacementIsBounded(Swing(p, lifetime), unit, higher);
    FloorsInOrder(LeadTime(p, lifetime), Swing(p, lifetime), Displacement(Swing(p, lifetime), unit),
                  Displacement(Swing(p, lifetime), higher));
  }

  lemma FloorsInOrder(lead: real, swing: real, low: real, high: real)
    requires -swing <= low <= high <= swing
    ensures (lead - swing).Floor <= (lead + low).Floor <= (lead + high).Floor <= (lead + swing).Floor
    ensures low == 0.0 ==> (lead + low).Floor == lead.Floor
    ensures low == -swing ==> (lead + low).Floor == (lead - swing).Floor
  {
  }

  lemma FloorsKeepOrder(a: real, b: real)
    requires a <= b
    ensures a.Floor <= b.Floor
  {
  }

  /** The curve starts at the base and doubles with each failure, up to the maximum or sixteen
      failures. */
  lemma CurveDoubles(p: KeepalivePolicy, fails: nat)
    ensures var most := Min(p.maxBackoffSecs, 0xFFFF_FFFF_FFFF_FFFF);
            && Curve(p, 0) == Min(p.baseBackoffSecs, most)
            && Curve(p, fails + 1) == if fails < 16 then Min(2 * Curve(p, fails), most) else Curve(p, fails)
  {
    PowDoubles(p.baseBackoffSecs, Min(fails, 16));
    CurveIsBounded(p, fails);
  }

  lemma PowDoubles(base: nat, n: nat)
    ensures base * Pow2(0) == base && base * Pow2(n + 1) == 2 * (base * Pow2(n)) && base * Pow2(n) >= 0
  {
    TimesIsNat(base, Pow2(n));
  }

  /** What upstream asks for is kept to, up to the maximum. */
  lemma RetryAfterIsKept(p: KeepalivePolicy, fails: nat, secs: nat, unit: real)
    ensures BackoffSecs(p, fails, Some(secs), unit) == if secs <= p.maxBackoffSecs then secs else p.maxBackoffSecs
  {
  }

  /** Otherwise the delay is a share of the curve: one second at the lowest draw, and no shorter for a higher
      draw than for a lower. */
  lemma BackoffGrows(p: KeepalivePolicy, fails: nat, unit: real, higher: real)
    requires Unit(unit) && Unit(higher) && unit <= higher
    ensures BackoffSecs(p, fails, None, 0.0) == 1
    ensures BackoffSecs(p, fails, None, unit) <= BackoffSecs(p, fails, None, higher)
  {
    CurveIsBounded(p, fails);
    SharesGrow(Curve(p, fails), unit, higher);
  }

  /** And every whole second below the curve is the delay for some draw. */
  lemma BackoffIsFullJitter(p: KeepalivePolicy, fails: nat, secs: nat) returns (draw: real)
    requires 1 <= secs < Curve(p, fails)
    ensures Unit(draw) && BackoffSecs(p, fails, None, draw) == secs
  {
    draw := ShareOf(secs, Curve(p, fails));
  }

  lemma SharesGrow(curve: nat, unit: real, higher: real)
    requires unit <= higher
    ensures (curve as real * unit).Floor <= (curve as real * higher).Floor
    ensures (curve as real * 0.0).Floor == 0
  {
    MulMonotone(unit, higher, curve as real);
    FloorsKeepOrder(curve as real * unit, curve as real * higher);
  }

  lemma ShareOf(part: nat, whole: nat) returns (draw: real)
    requires part < whole
    ensures Unit(draw) && (whole as real * draw).Floor == part
  {
    draw := part as real / whole as real;
    DivideBack(part as real, whole as real);
  }

  lemma DivideBack(part: real, whole: real)
    requires 0.0 <= part < whole
    ensures 0.0 <= part / whole < 1.0 && whole * (part / whole) == part
  {
  }

  /** A jittered share of a whole number of seconds is no more than all of them. */
  lemma ShareIsBounded(secs: nat, unit: real)
    requires Unit(unit)
    ensures 0 <= (secs as real * unit).Floor <= secs
  {
    var whole := secs as real;
    MulMonotone(0.0, unit, whole);
    MulMonotone(unit, 1.0, whole);
    assert 0.0 <= whole * unit <= whole;
  }

  lemma CurveIsBounded(p: KeepalivePolicy, failCount: nat)
    ensures 0 <= Curve(p, failCount) <= p.maxBackoffSecs
  {
    PowPositive(Min(failCount, 16));
    TimesIsNat(p.baseBackoffSecs, Pow2(Min(failCount, 16)));
  }

  lemma TimesIsNat(a: nat, b: nat)
    ensures 0 <= a * b
  {
  }

  /** Backoff never exceeds the configured maximum, except for the one-second floor. */
  lemma BackoffIsCapped(p: KeepalivePolicy, failCount: nat, retryAfter: Option<nat>, unit: real)
    requires Unit(unit)
    ensures 0 <= BackoffSecs(p, failCount, retryAfter, unit) <= Max(p.maxBackoffSecs, 1)
  {
    if retryAfter.None? {
      CurveIsBounded(p, failCount);
      ShareIsBounded(Curve(p, failCount), unit);
    }
  }

  /** A failing custody cannot spin, exactly unless upstream says to retry after zero seconds or
      the maximum backoff is zero: `Retry-After` is not floored to a second as backoff is. */
  lemma SpinsExactly(p: KeepalivePolicy, state: CustodyState, retryAfter: Option<nat>, now: Timestamp, unit: real)
    requires Unit(unit)
    ensures Settled(p, state, Transient(retryAfter), now, unit).nextRefresh > now
       <==> !(retryAfter.Some? && (retryAfter.value == 0 || p.maxBackoffSecs == 0))
  {
    BackoffIsCapped(p, Min(state.failCount + 1, U32_MAX) - 1, retryAfter, unit);
  }

  // ---------------------------------------------------------------------------------------
  // Boot: restoring the schedule
  // ---------------------------------------------------------------------------------------

  datatype CustodyRow = CustodyRow(custody: CustodyId, status: CustodyStatus, accessExp: Timestamp,
                                   nextRefresh: Timestamp)

  const STAMPEDE_SPREAD_SECS: nat := 30

  /** When row `index` of `count` is next refreshed after a restart at `now`. */
  function SpreadRefresh(row: CustodyRow, index: nat, count: nat, now: Timestamp): Timestamp
    requires index < count
  {
    if row.nextRefresh <= now then now + index * 30 / count else row.nextRefresh
  }

  function RestoreRows(s: Schedule, rows: seq<CustodyRow>, now: Timestamp): Schedule {
    if rows == [] then s else RestoreFirst(s, rows, |rows|, now)
  }

  /** The schedule once the first `n` rows are restored. */
  function RestoreFirst(s: Schedule, rows: seq<CustodyRow>, n: nat, now: Timestamp): Schedule
    requires n <= |rows|
  {
    if n == 0 then s
    else
      var row := rows[n - 1];
      Restored(RestoreFirst(s, rows, n - 1, now), row.custody, row.status, row.accessExp,
               SpreadRefresh(row, n - 1, |rows|, now))
  }

  method RestoreKeepaliveSchedule(scheduler: Scheduler, rows: seq<CustodyRow>, now: Timestamp) returns (count: nat)
    modifies scheduler
    ensures scheduler.View() == RestoreRows(old(scheduler.View()), rows, now)
    ensures count == |rows|
  {
    count := |rows|;
    for index := 0 to |rows|
      invariant scheduler.View() == RestoreFirst(old(scheduler.View()), rows, index, now)
    {
      var row := rows[index];
      var nextRefresh := row.nextRefresh;
      if row.nextRefresh <= now {
        var spread := index * STAMPEDE_SPREAD_SECS / Max(count, 1);
        nextRefresh := now + spread;
      }
      scheduler.InsertRestored(row.custody, row.status, row.accessExp, nextRefresh);
    }
  }

  /** The restored schedule holds every row at its spread time, and heap and map agree. */
  lemma {:induction false} RestoredSchedule(s: Schedule, rows: seq<CustodyRow>, n: nat, now: Timestamp)
    requires Agrees(s) && n <= |rows|
    requires forall i, j :: 0 <= i < j < |rows| ==> rows[i].custody != rows[j].custody
    ensures var s' := RestoreFirst(s, rows, n, now);
            && Agrees(s')
            && forall i :: 0 <= i < n ==>
                 && rows[i].custody in s'.entries
                 && s'.entries[rows[i].custody]
                    == CustodyState(rows[i].status, rows[i].accessExp, SpreadRefresh(rows[i], i, |rows|, now), 0, false)
  {
    if n > 0 {
      var row := rows[n - 1];
      RestoredSchedule(s, rows, n - 1, now);
      ScheduledAgrees(RestoreFirst(s, rows, n - 1, now), row.custody,
        CustodyState(row.status, row.accessExp, SpreadRefresh(row, n - 1, |rows|, now), 0, false));
    }
  }

  predicate Overdue(rows: seq<CustodyRow>, i: int, now: Timestamp) {
    0 <= i < |rows| && rows[i].nextRefresh <= now
  }

  lemma QuotientBounds(a: int, n: int)
    requires n > 0
    ensures a / n * n <= a < a / n * n + n
  {
  }

  lemma TimesMonotone(a: int, b: int, n: int)
    requires a <= b && n >= 0
    ensures a * n <= b * n
  {
  }

  lemma QuotientMonotone(a: int, b: int, n: int)
    requires a <= b && n > 0
    ensures a / n <= b / n
  {
    QuotientBounds(a, n);
    QuotientBounds(b, n);
    if a / n > b / n {
      TimesMonotone(b / n + 1, a / n, n);
    }
  }

  /** A custody that is not overdue keeps its stored date; the `i`th of `n` rows, if overdue, comes due at its
      share of thirty seconds, in whole seconds. */
  lemma SpreadIsExact(rows: seq<CustodyRow>, i: nat, now: Timestamp)
    requires i < |rows|
    ensures var at := SpreadRefresh(rows[i], i, |rows|, now);
            if rows[i].nextRefresh > now then at == rows[i].nextRefresh
            else (at - now) * |rows| <= 30 * i < (at - now) * |rows| + |rows|
  {
    QuotientBounds(i * 30, |rows|);
  }

  /** Overdue custodies come due within thirty seconds of boot, in row order. */
  lemma SpreadIsOrdered(rows: seq<CustodyRow>, i: nat, j: nat, now: Timestamp)
    requires i <= j && Overdue(rows, i, now) && Overdue(rows, j, now)
    ensures now <= SpreadRefresh(rows[i], i, |rows|, now) <= SpreadRefresh(rows[j], j, |rows|, now) <= now + 29
  {
    var n := |rows|;
    QuotientMonotone(0, i * 30, n);
    QuotientMonotone(i * 30, j * 30, n);
    QuotientMonotone(j * 30, 30 * n - 1, n);
    assert (30 * n - 1) / n == 29 by { QuotientIs(30 * n - 1, n, 29); }
  }

  lemma QuotientIs(a: int, n: int, q: int)
    requires n > 0 && q * n <= a < q * n + n
    ensures a / n == q
  {
    QuotientBounds(a, n);
    if a / n < q {
      TimesMonotone(a / n + 1, q, n);
    } else if a / n > q {
      TimesMonotone(q + 1, a / n, n);
    }
  }

  /** And at most `ceil(n / 30)` of them share any one second. */
  lemma SpreadIsEven(rows: seq<CustodyRow>, now: Timestamp, at: Timestamp)
    ensures |set i | 0 <= i < |rows| && Overdue(rows, i, now) && SpreadRefresh(rows[i], i, |rows|, now) == at|
         <= (|rows| + 29) / 30
  {
    var n := |rows|;
    var sharing := set i | 0 <= i < n && Overdue(rows, i, now) && SpreadRefresh(rows[i], i, n, now) == at;
    var k := at - now;
    var first := (k * n + 29) / 30;
    forall j | j in sharing ensures first <= j < first + (n + 29) / 30 {
      QuotientBounds(j * 30, n);
      assert j * 30 / n == k;
    }
    BoundedByInterval(sharing, first, (n + 29) / 30);
  }

  lemma {:induction false} BoundedByInterval(s: set<int>, from: int, len: nat)
    requires forall x :: x in s ==> from <= x < from + len
    ensures |s| <= len
    decreases len
  {
    if len == 0 {
      assert forall x :: x !in s;
      assert s == {};
    } else {
      var last := from + len - 1;
      BoundedByInterval(s - {last}, from, len - 1);
    }
  }
}
