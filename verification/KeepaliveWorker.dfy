/** One pass of the keepalive worker: dispatch what is due, record each answer as it comes in, and
    carry custody health and revocation into the session map. */
module KeepaliveWorker {
  import opened Prelude
  import opened Custody
  import opened SessionModel
  import opened SessionStore
  import opened SessionMaps
  import opened SessionCap
  import opened SessionIdeal
  import opened SessionInvariant
  import opened SessionRestart
  import K = Scheduler

  /** An upstream answer, with the clock reading and the jitter draw it was recorded under. */
  datatype Answer = Answer(custody: CustodyId, outcome: K.RefreshOutcome, now: Timestamp, unit: real)

  /** The scheduler once these answers are recorded, in order. */
  function ScheduleAfter(kp: K.KeepalivePolicy, s: K.Schedule, answers: seq<Answer>): K.Schedule {
    if answers == [] then s
    else
      var a := answers[|answers| - 1];
      K.Recorded(kp, ScheduleAfter(kp, s, answers[..|answers| - 1]), a.custody, a.outcome, a.now, a.unit)
  }

  /** The health `record` reports for the custody, if the scheduler still has it. */
  function Reports(kp: K.KeepalivePolicy, s: K.Schedule, a: Answer): Option<CustodyStatus> {
    var after := K.Recorded(kp, s, a.custody, a.outcome, a.now, a.unit);
    if a.custody in after.entries then Some(after.entries[a.custody].status) else None
  }

  /** A dead grant kills its sessions. */
  predicate Kills(kp: K.KeepalivePolicy, a: Answer) {
    a.outcome.Permanent? && kp.onUpstreamRevoked.Kill?
  }

  /** What an answer does to one session. */
  function Carried(kp: K.KeepalivePolicy, s: K.Schedule, e: Entry, a: Answer): Entry {
    var marked := match Reports(kp, s, a)
                  case Some(status) => WithStatus(e, a.custody, status)
                  case None => e;
    if Kills(kp, a) && e.custody == a.custody && e.status.Alive? then Buried(marked, a.now) else marked
  }

  function CarriedAll(kp: K.KeepalivePolicy, s: K.Schedule, entries: map<Sid, Entry>, a: Answer): map<Sid, Entry> {
    map x | x in entries :: Carried(kp, s, entries[x], a)
  }

  /** The sessions once these answers are carried through, in order. */
  function EntriesAfter(kp: K.KeepalivePolicy, s: K.Schedule, entries: map<Sid, Entry>,
                        answers: seq<Answer>): map<Sid, Entry> {
    if answers == [] then entries
    else
      var rest := answers[..|answers| - 1];
      CarriedAll(kp, ScheduleAfter(kp, s, rest), EntriesAfter(kp, s, entries, rest), answers[|answers| - 1])
  }

  lemma AfterOneMore(kp: K.KeepalivePolicy, s: K.Schedule, entries: map<Sid, Entry>, answers: seq<Answer>, a: Answer)
    ensures ScheduleAfter(kp, s, answers + [a])
         == K.Recorded(kp, ScheduleAfter(kp, s, answers), a.custody, a.outcome, a.now, a.unit)
    ensures EntriesAfter(kp, s, entries, answers + [a])
         == CarriedAll(kp, ScheduleAfter(kp, s, answers), EntriesAfter(kp, s, entries, answers), a)
  {
    assert (answers + [a])[..|answers|] == answers;
  }

  lemma {:induction false} RunJoins(p: SessionPolicy, y: System, a: seq<Op>, b: seq<Op>)
    ensures Run(p, y, a + b) == Run(p, Run(p, y, a), b)
    decreases |b|
  {
    if b == [] {
      assert a + b == a;
    } else {
      var front, last := b[..|b| - 1], b[|b| - 1];
      assert b == front + [last] && a + b == (a + front) + [last];
      RunSnoc(p, y, NOBODY, a + front, last);
      RunSnoc(p, Run(p, y, a), NOBODY, front, last);
      RunJoins(p, y, a, front);
    }
  }

  /** Health as reported, on every session of the custody. */
  ghost predicate MarksAll(reported: Option<CustodyStatus>, custody: CustodyId, entries: map<Sid, Entry>,
                           marked: map<Sid, Entry>) {
    && marked.Keys == entries.Keys
    && forall x :: x in entries ==>
         marked[x] == match reported
                      case Some(status) => WithStatus(entries[x], custody, status)
                      case None => entries[x]
  }

  lemma SetMarks(p: SessionPolicy, y: System, custody: CustodyId, status: CustodyStatus)
    ensures var y' := Run(p, y, [SetCustody(custody, status)]);
            && y' == AfterSetCustody(y, custody, status) && y'.store.index == y.store.index
            && MarksAll(Some(status), custody, y.store.sessions, y'.store.sessions)
  {
    var y' := Step(p, y, SetCustody(custody, status));
    assert Run(p, y', []) == y';
  }

  lemma CarriesThrough(kp: K.KeepalivePolicy, s: K.Schedule, entries: map<Sid, Entry>, marked: map<Sid, Entry>,
                       after: map<Sid, Entry>, a: Answer, gone: seq<Sid>)
    requires MarksAll(Reports(kp, s, a), a.custody, entries, marked)
    requires BuriesIn(marked, after, gone, a.now)
    requires if Kills(kp, a) then Lists(gone, AliveOn(marked, a.custody)) else gone == []
    ensures after == CarriedAll(kp, s, entries, a)
  {
    forall x | x in entries ensures after[x] == Carried(kp, s, entries[x], a) {
      assert x in gone <==> Kills(kp, a) && x in AliveOn(marked, a.custody);
    }
  }

  lemma MarkedAliveOn(reported: Option<CustodyStatus>, custody: CustodyId, entries: map<Sid, Entry>,
                      marked: map<Sid, Entry>)
    requires MarksAll(reported, custody, entries, marked)
    ensures AliveOn(marked, custody) == AliveOn(entries, custody)
  {
  }

  // ---------------------------------------------------------------------------------------
  // Whose answers have come in
  // ---------------------------------------------------------------------------------------

  function Custodies(answers: seq<Answer>): set<CustodyId> {
    set a | a in answers :: a.custody
  }

  /** One answer for each custody of `asked` whose refresh did not panic, and no other. */
  ghost predicate Joined(asked: seq<CustodyId>, outcomes: map<CustodyId, K.RefreshOutcome>, answers: seq<Answer>) {
    && (forall c :: c in Custodies(answers) <==> c in asked && c in outcomes)
    && forall i, j :: 0 <= i < j < |answers| ==> answers[i].custody != answers[j].custody
  }

  /** What a pass is told: the outcome of each refresh that did not panic, and the readings of the
      clock and the jitter source as its answers come in, one after the other. */
  datatype Feed = Feed(outcomes: map<CustodyId, K.RefreshOutcome>, clock: nat -> Timestamp, draw: nat -> real)

  /** The `n`th answer of a pass, if it is `c`'s. */
  function AnswerOf(feed: Feed, c: CustodyId, n: nat): Answer
    requires c in feed.outcomes
  {
    Answer(c, feed.outcomes[c], feed.clock(n), feed.draw(n))
  }

  /** Each carries its own outcome, and the clock and the jitter as read when it came in. */
  ghost predicate Read(feed: Feed, answers: seq<Answer>) {
    forall k: nat {:trigger answers[k]} :: k < |answers| ==>
      answers[k].custody in feed.outcomes && answers[k] == AnswerOf(feed, answers[k].custody, k)
  }

  lemma JoinedOneMore(asked: seq<CustodyId>, outcomes: map<CustodyId, K.RefreshOutcome>, answers: seq<Answer>,
                      a: Answer)
    requires Joined(asked, outcomes, answers) && a.custody !in asked
    ensures a.custody in outcomes ==> Joined(asked + [a.custody], outcomes, answers + [a])
    ensures a.custody !in outcomes ==> Joined(asked + [a.custody], outcomes, answers)
  {
    forall i | 0 <= i < |answers| ensures answers[i].custody != a.custody {
      assert answers[i] in answers && answers[i].custody in Custodies(answers);
    }
    assert Custodies(answers + [a]) == Custodies(answers) + {a.custody};
  }

  lemma JoinedSame(asked: seq<CustodyId>, others: seq<CustodyId>, outcomes: map<CustodyId, K.RefreshOutcome>,
                   answers: seq<Answer>)
    requires Joined(asked, outcomes, answers) && forall c :: c in asked <==> c in others
    ensures Joined(others, outcomes, answers)
  {
  }

  /** Answers of others come after. */
  lemma JoinedTogether(asked: seq<CustodyId>, chunk: seq<CustodyId>, outcomes: map<CustodyId, K.RefreshOutcome>,
                       answers: seq<Answer>, batch: seq<Answer>)
    requires Joined(asked, outcomes, answers) && Joined(chunk, outcomes, batch)
    requires forall c :: c in chunk ==> c !in asked
    ensures Joined(asked + chunk, outcomes, answers + batch)
  {
    var all := answers + batch;
    forall i, j | 0 <= i < j < |all| ensures all[i].custody != all[j].custody {
      if i < |answers| <= j {
        assert answers[i] in answers && batch[j - |answers|] in batch;
        assert answers[i].custody in Custodies(answers) && batch[j - |answers|].custody in Custodies(batch);
      }
    }
    assert Custodies(all) == Custodies(answers) + Custodies(batch);
  }

  predicate AllDifferent(cs: seq<CustodyId>) {
    forall i, j :: 0 <= i < j < |cs| ==> cs[i] != cs[j]
  }

  /** Refreshes in flight together finish in any order. */
  method AnyOrder(chunk: seq<CustodyId>) returns (order: seq<CustodyId>)
    ensures AllDifferent(order) && forall c :: c in order <==> c in chunk
  {
    var pending := set c | c in chunk;
    order := [];
    while pending != {}
      invariant AllDifferent(order) && forall c :: c in chunk <==> c in order || c in pending
      invariant forall c :: c in order ==> c !in pending
    {
      var c :| c in pending;
      order := order + [c];
      pending := pending - {c};
    }
  }

  // ---------------------------------------------------------------------------------------
  // Batches
  // ---------------------------------------------------------------------------------------

  /** What is due, cut into batches of at most `size`. */
  function Chunks(due: seq<CustodyId>, size: nat): seq<seq<CustodyId>>
    requires size > 0
    decreases |due|
  {
    if due == [] then [] else if |due| <= size then [due] else [due[..size]] + Chunks(due[size..], size)
  }

  function Flat<T>(parts: seq<seq<T>>): seq<T> {
    if parts == [] then [] else Flat(parts[..|parts| - 1]) + parts[|parts| - 1]
  }

  lemma {:induction false} FlatCons(first: seq<CustodyId>, rest: seq<seq<CustodyId>>)
    ensures Flat([first] + rest) == first + Flat(rest)
    decreases |rest|
  {
    var parts := [first] + rest;
    if rest == [] {
      assert parts[..0] == [];
    } else {
      assert parts[..|parts| - 1] == [first] + rest[..|rest| - 1];
      FlatCons(first, rest[..|rest| - 1]);
    }
  }

  /** Parts of at most `size`, none empty, all full but the last. */
  ghost predicate WellCut(parts: seq<seq<CustodyId>>, size: nat) {
    && (forall b :: 0 <= b < |parts| ==> 0 < |parts[b]| <= size)
    && (forall b :: 0 <= b < |parts| - 1 ==> |parts[b]| == size)
  }

  lemma CutBefore(first: seq<CustodyId>, rest: seq<seq<CustodyId>>, size: nat)
    requires WellCut(rest, size) && |first| == size > 0
    ensures WellCut([first] + rest, size)
  {
    var parts := [first] + rest;
    forall b | 0 <= b < |parts| ensures 0 < |parts[b]| <= size && (b < |parts| - 1 ==> |parts[b]| == size) {
      if b > 0 {
        assert parts[b] == rest[b - 1];
      }
    }
  }

  /** The batches are what is due, in order, each full but the last: `max_concurrent` calls at once
      and never more. */
  lemma {:induction false} ChunksAreExact(due: seq<CustodyId>, size: nat)
    requires size > 0
    ensures Flat(Chunks(due, size)) == due && WellCut(Chunks(due, size), size)
    decreases |due|
  {
    if |due| > size {
      ChunksAreExact(due[size..], size);
      FlatCons(due[..size], Chunks(due[size..], size));
      CutBefore(due[..size], Chunks(due[size..], size), size);
    } else if due != [] {
      assert [due][..0] == [];
    }
  }

  /** The answers came in batch by batch, each batch in an order of its own. */
  ghost predicate Batched(chunks: seq<seq<CustodyId>>, outcomes: map<CustodyId, K.RefreshOutcome>,
                          batches: seq<seq<Answer>>, answers: seq<Answer>) {
    && |batches| == |chunks| && answers == Flat(batches)
    && forall b {:trigger batches[b]} :: 0 <= b < |chunks| ==> Joined(chunks[b], outcomes, batches[b])
  }

  lemma BatchedOneMore(chunks: seq<seq<CustodyId>>, outcomes: map<CustodyId, K.RefreshOutcome>,
                       batches: seq<seq<Answer>>, answers: seq<Answer>, chunk: seq<CustodyId>, batch: seq<Answer>)
    requires Batched(chunks, outcomes, batches, answers) && Joined(chunk, outcomes, batch)
    ensures Batched(chunks + [chunk], outcomes, batches + [batch], answers + batch)
  {
    assert (batches + [batch])[..|batches|] == batches;
  }

  /** Together they are the answers of everything that was due. */
  lemma {:induction false} BatchesJoin(chunks: seq<seq<CustodyId>>, outcomes: map<CustodyId, K.RefreshOutcome>,
                                       batches: seq<seq<Answer>>, answers: seq<Answer>)
    requires Batched(chunks, outcomes, batches, answers) && AllDifferent(Flat(chunks))
    ensures Joined(Flat(chunks), outcomes, answers)
    decreases |chunks|
  {
    if chunks == [] {
      assert Custodies(answers) == {};
    } else {
      var n := |chunks| - 1;
      var front, last := chunks[..n], chunks[n];
      assert Joined(last, outcomes, batches[n]);
      assert Batched(front, outcomes, batches[..n], Flat(batches[..n]));
      DifferentParts(Flat(front), last);
      BatchesJoin(front, outcomes, batches[..n], Flat(batches[..n]));
      JoinedTogether(Flat(front), last, outcomes, Flat(batches[..n]), batches[n]);
    }
  }

  /** One batch further on. */
  lemma BatchedNext(chunks: seq<seq<CustodyId>>, k: nat, outcomes: map<CustodyId, K.RefreshOutcome>,
                    batches: seq<seq<Answer>>, answers: seq<Answer>, batch: seq<Answer>)
    requires k < |chunks| && Batched(chunks[..k], outcomes, batches, answers) && Joined(chunks[k], outcomes, batch)
    ensures Batched(chunks[..k + 1], outcomes, batches + [batch], answers + batch)
  {
    BatchedOneMore(chunks[..k], outcomes, batches, answers, chunks[k], batch);
    assert chunks[..k + 1] == chunks[..k] + [chunks[k]];
  }

  /** All batches in: what was due has been answered. */
  lemma AllBatched(due: seq<CustodyId>, size: nat, outcomes: map<CustodyId, K.RefreshOutcome>,
                   batches: seq<seq<Answer>>, answers: seq<Answer>)
    requires size > 0 && AllDifferent(due)
    requires var chunks := Chunks(due, size); Batched(chunks[..|chunks|], outcomes, batches, answers)
    ensures Batched(Chunks(due, size), outcomes, batches, answers) && Joined(due, outcomes, answers)
  {
    var chunks := Chunks(due, size);
    assert chunks[..|chunks|] == chunks;
    ChunksAreExact(due, size);
    BatchesJoin(chunks, outcomes, batches, answers);
  }

  lemma DifferentParts(a: seq<CustodyId>, b: seq<CustodyId>)
    requires AllDifferent(a + b)
    ensures AllDifferent(a) && forall c :: c in b ==> c !in a
  {
    assert forall i :: 0 <= i < |a| ==> (a + b)[i] == a[i];
    assert forall j :: 0 <= j < |b| ==> (a + b)[|a| + j] == b[j];
  }

  lemma DueAllDifferent(s: K.Schedule, now: Timestamp)
    requires K.Agrees(s)
    ensures AllDifferent(K.TakeDue(s, now).1)
  {
    K.DueSetIsExact(s, now);
    var due := K.TakeDue(s, now).1;
    forall j, k | 0 <= j < k < |due| ensures due[j] != due[k] {
      assert K.FirstItem(s.due, due[j]) < K.FirstItem(s.due, due[k]);
    }
  }

  /** Nothing but health reports, and kills at this instant. */
  ghost predicate Upkeep(ops: seq<Op>, now: Timestamp) {
    forall op :: op in ops ==> op.SetCustody? || (op.Tombstone? && op.now == now)
  }

  lemma {:induction false} UpkeepKeeps(p: SessionPolicy, y: System, ops: seq<Op>, now: Timestamp)
    requires Inv(p, y) && y.clock <= now && Upkeep(ops, now)
    ensures Inv(p, Run(p, y, ops)) && Run(p, y, ops).clock <= now
    decreases |ops|
  {
    if ops != [] {
      assert ops[0] in ops;
      StepKeeps(p, y, ops[0]);
      assert forall op :: op in ops[1..] ==> op in ops;
      UpkeepKeeps(p, Step(p, y, ops[0]), ops[1..], now);
    }
  }

  /** The clock when the last of these answers was read. */
  function Reading(start: Timestamp, answers: seq<Answer>): Timestamp {
    if answers == [] then start else answers[|answers| - 1].now
  }

  /** The clock ran forward from answer to answer. */
  predicate Forward(start: Timestamp, answers: seq<Answer>)
    decreases |answers|
  {
    answers == [] ||
    (Forward(start, answers[..|answers| - 1]) && Reading(start, answers[..|answers| - 1]) <= answers[|answers| - 1].now)
  }

  /** How far a pass has come from where it dispatched. */
  ghost predicate Progress(kp: K.KeepalivePolicy, p: SessionPolicy, s: K.Schedule, y: System, answers: seq<Answer>,
                           ops: seq<Op>, s': K.Schedule, y': System) {
    && s' == ScheduleAfter(kp, s, answers) && y' == Run(p, y, ops)
    && y'.store == Store(EntriesAfter(kp, s, y.store.sessions, answers), y.store.index)
    && (Inv(p, y) && Forward(y.clock, answers) ==> Inv(p, y') && y'.clock <= Reading(y.clock, answers))
  }

  lemma NoProgress(kp: K.KeepalivePolicy, p: SessionPolicy, s: K.Schedule, y: System)
    ensures Progress(kp, p, s, y, [], [], s, y)
  {
  }

  lemma MoreProgress(kp: K.KeepalivePolicy, p: SessionPolicy, s: K.Schedule, y: System, answers: seq<Answer>,
                     ops: seq<Op>,
                     s1: K.Schedule, y1: System, a: Answer, more: seq<Op>, s2: K.Schedule, y2: System)
    requires Progress(kp, p, s, y, answers, ops, s1, y1)
    requires s2 == K.Recorded(kp, s1, a.custody, a.outcome, a.now, a.unit) && y2 == Run(p, y1, more)
             && Upkeep(more, a.now)
    requires y2.store == Store(CarriedAll(kp, s1, y1.store.sessions, a), y1.store.index)
    ensures Progress(kp, p, s, y, answers + [a], ops + more, s2, y2)
  {
    AfterOneMore(kp, s, y.store.sessions, answers, a);
    RunJoins(p, y, ops, more);
    assert (answers + [a])[..|answers|] == answers;
    if Inv(p, y) && Forward(y.clock, answers + [a]) {
      UpkeepKeeps(p, y1, more, a.now);
    }
  }

  /** Where a pass dispatched, and what has come in since: the answers, and the operations on the
      session map they stood for. */
  datatype Pass = Pass(schedule: K.Schedule, system: System, answers: seq<Answer>, ops: seq<Op>)

  /** The same pass with more answers in. */
  predicate Extends(pass: Pass, more: Pass, batch: seq<Answer>) {
    more.schedule == pass.schedule && more.system == pass.system && more.answers == pass.answers + batch
  }

  lemma ExtendsFurther(pass: Pass, mid: Pass, more: Pass, batch: seq<Answer>, came: seq<Answer>)
    requires Extends(pass, mid, batch) && Extends(mid, more, came)
    ensures Extends(pass, more, batch + came) && |more.answers| == |mid.answers| + |came|
  {
  }

  lemma ReadOneMore(feed: Feed, answers: seq<Answer>, c: CustodyId)
    requires Read(feed, answers) && c in feed.outcomes
    ensures Read(feed, answers + [AnswerOf(feed, c, |answers|)])
  {
  }

  /** What `c`'s refresh adds as the `n`th answer: nothing, if it panicked. */
  function Came(feed: Feed, c: CustodyId, n: nat): seq<Answer> {
    if c in feed.outcomes then [AnswerOf(feed, c, n)] else []
  }

  lemma BatchNext(order: seq<CustodyId>, i: nat, feed: Feed, batch: seq<Answer>, n: nat)
    requires AllDifferent(order) && i < |order| && Joined(order[..i], feed.outcomes, batch)
    ensures Joined(order[..i + 1], feed.outcomes, batch + Came(feed, order[i], n))
  {
    assert order[..i + 1] == order[..i] + [order[i]];
    JoinedOneMore(order[..i], feed.outcomes, batch, Answer(order[i], K.Permanent, feed.clock(n), feed.draw(n)));
    if order[i] in feed.outcomes {
      JoinedOneMore(order[..i], feed.outcomes, batch, AnswerOf(feed, order[i], n));
    }
  }

  class Worker {
    const scheduler: K.Scheduler
    const sessions: SessionMap

    constructor (scheduler: K.Scheduler, sessions: SessionMap)
      ensures this.scheduler == scheduler && this.sessions == sessions
    {
      this.scheduler, this.sessions := scheduler, sessions;
    }

    /** Record an answer, and its custody's health on the sessions. */
    method Mark(a: Answer) returns (ghost ops: seq<Op>)
      requires sessions.Valid()
      modifies scheduler, sessions`history, sessions.Cells()
      ensures sessions.Valid() && sessions.sessions == old(sessions.sessions)
      ensures scheduler.View()
           == K.Recorded(scheduler.policy, old(scheduler.View()), a.custody, a.outcome, a.now, a.unit)
      ensures sessions.history == Run(sessions.p, old(sessions.history), ops) && Upkeep(ops, a.now)
      ensures sessions.history.store.index == old(sessions.history).store.index
      ensures MarksAll(Reports(scheduler.policy, old(scheduler.View()), a), a.custody,
                       old(sessions.history).store.sessions, sessions.history.store.sessions)
    {
      var status := scheduler.Record(a.custody, a.outcome, a.now, a.unit);
      ops := [];
      if status.Some? {
        ops := [SetCustody(a.custody, status.value)];
        SetMarks(sessions.p, sessions.history, a.custody, status.value);
        var touched, order := sessions.SetCustodyStatus(a.custody, status.value);
      }
    }

    /** A dead grant's sessions go, if that is the policy. */
    method Revoke(a: Answer) returns (killed: nat, ghost gone: seq<Sid>, ghost ops: seq<Op>)
      requires sessions.Valid()
      modifies sessions, sessions.Cells()
      ensures sessions.Valid() && sessions.sessions == old(sessions.sessions)
      ensures sessions.history == Run(sessions.p, old(sessions.history), ops) && Upkeep(ops, a.now)
      ensures sessions.history.store.index == old(sessions.history).store.index
      ensures BuriesIn(old(sessions.history).store.sessions, sessions.history.store.sessions, gone, a.now)
      ensures var alive := AliveOn(old(sessions.history).store.sessions, a.custody);
              if Kills(scheduler.policy, a) then Lists(gone, alive) && killed == |alive| else gone == [] && killed == 0
    {
      killed, gone, ops := 0, [], [];
      if a.outcome.Permanent? && scheduler.policy.onUpstreamRevoked.Kill? {
        killed, gone, ops := sessions.TombstoneByCustody(a.custody, a.now);
      }
    }

    /** Record one answer and carry what it says into the session map. */
    method Handle(a: Answer) returns (killed: nat, ghost ops: seq<Op>)
      requires sessions.Valid()
      modifies scheduler, sessions, sessions.Cells()
      ensures sessions.Valid() && sessions.sessions == old(sessions.sessions)
      ensures scheduler.View()
           == K.Recorded(scheduler.policy, old(scheduler.View()), a.custody, a.outcome, a.now, a.unit)
      ensures sessions.history == Run(sessions.p, old(sessions.history), ops) && Upkeep(ops, a.now)
      ensures sessions.history.store
           == Store(CarriedAll(scheduler.policy, old(scheduler.View()), old(sessions.history).store.sessions, a),
                    old(sessions.history).store.index)
      ensures killed == if Kills(scheduler.policy, a)
                        then |AliveOn(old(sessions.history).store.sessions, a.custody)| else 0
    {
      ghost var s, entries := scheduler.View(), sessions.history.store.sessions;
      ghost var marks := Mark(a);
      ghost var marked := sessions.history.store.sessions;
      ghost var gone, kills;
      killed, gone, kills := Revoke(a);
      ops := marks + kills;
      RunJoins(sessions.p, old(sessions.history), marks, kills);
      MarkedAliveOn(Reports(scheduler.policy, s, a), a.custody, entries, marked);
      CarriesThrough(scheduler.policy, s, entries, marked, sessions.history.store.sessions, a, gone);
    }

    /** A pass so far: everything that came in is recorded and carried through. */
    ghost predicate Underway(feed: Feed, pass: Pass)
      reads scheduler, sessions, sessions.Cells()
    {
      && sessions.Valid() && Read(feed, pass.answers)
      && Progress(scheduler.policy, sessions.p, pass.schedule, pass.system, pass.answers, pass.ops,
                  scheduler.View(), sessions.history)
    }

    /** One refresh has finished, or panicked. */
    method JoinNext(c: CustodyId, feed: Feed, handled: nat, ghost pass: Pass) returns (answered: bool, ghost more: Pass)
      requires Underway(feed, pass) && handled == |pass.answers|
      modifies scheduler, sessions, sessions.Cells()
      ensures Underway(feed, more) && sessions.sessions == old(sessions.sessions)
      ensures answered == (c in feed.outcomes)
      ensures Extends(pass, more, Came(feed, c, handled))
    {
      answered, more := c in feed.outcomes, pass;
      if answered {
        var a := AnswerOf(feed, c, handled);
        ghost var s, y := scheduler.View(), sessions.history;
        ghost var ops;
        var killed;
        killed, ops := Handle(a);
        ReadOneMore(feed, pass.answers, c);
        MoreProgress(scheduler.policy, sessions.p, pass.schedule, pass.system, pass.answers, pass.ops, s, y,
                     a, ops, scheduler.View(), sessions.history);
        more := pass.(answers := pass.answers + [a], ops := pass.ops + ops);
      }
    }

    /** One bounded batch, dispatched together and joined in whatever order it finishes. */
    method JoinBatch(chunk: seq<CustodyId>, feed: Feed, handled: nat, ghost pass: Pass)
        returns (count: nat, ghost more: Pass, ghost batch: seq<Answer>)
      requires Underway(feed, pass) && handled == |pass.answers|
      modifies scheduler, sessions, sessions.Cells()
      ensures Underway(feed, more) && sessions.sessions == old(sessions.sessions)
      ensures Extends(pass, more, batch) && Joined(chunk, feed.outcomes, batch) && count == |more.answers|
    {
      var order := AnyOrder(chunk);
      count, more, batch := handled, pass, [];
      for i := 0 to |order|
        invariant Underway(feed, more) && sessions.sessions == old(sessions.sessions)
        invariant Extends(pass, more, batch) && Joined(order[..i], feed.outcomes, batch) && count == |more.answers|
      {
        BatchNext(order, i, feed, batch, count);
        ghost var before, came := more, Came(feed, order[i], count);
        var answered;
        answered, more := JoinNext(order[i], feed, count, more);
        ExtendsFurther(pass, before, more, batch, came);
        batch := batch + came;
        if answered {
          count := count + 1;
        }
      }
      assert order[..|order|] == order;
      JoinedSame(order, chunk, feed.outcomes, batch);
    }

    /** One pass: take what is due, ask upstream in bounded batches, and carry every answer through,
        one batch after the other. */
    method Tick(now: Timestamp, feed: Feed) returns (handled: nat, ghost pass: Pass, ghost batches: seq<seq<Answer>>)
      requires sessions.Valid() && K.Agrees(scheduler.View())
      modifies scheduler, sessions, sessions.Cells()
      ensures Underway(feed, pass) && sessions.sessions == old(sessions.sessions) && handled == |pass.answers|
      ensures pass.schedule == K.TakeDue(old(scheduler.View()), now).0 && pass.system == old(sessions.history)
      ensures var due := K.TakeDue(old(scheduler.View()), now).1;
              && Joined(due, feed.outcomes, pass.answers)
              && Batched(Chunks(due, Max(scheduler.policy.maxConcurrent, 1)), feed.outcomes, batches, pass.answers)
    {
      DueAllDifferent(scheduler.View(), now);
      var due := scheduler.Take(now);
      pass, batches := Pass(scheduler.View(), sessions.history, [], []), [];
      NoProgress(scheduler.policy, sessions.p, scheduler.View(), sessions.history);
      handled := 0;
      var chunks := Chunks(due, Max(scheduler.policy.maxConcurrent, 1));
      for k := 0 to |chunks|
        invariant Underway(feed, pass) && sessions.sessions == old(sessions.sessions) && handled == |pass.answers|
        invariant pass.schedule == K.TakeDue(old(scheduler.View()), now).0 && pass.system == old(sessions.history)
        invariant Batched(chunks[..k], feed.outcomes, batches, pass.answers)
      {
        ghost var before, batch := pass.answers, [];
        handled, pass, batch := JoinBatch(chunks[k], feed, handled, pass);
        BatchedNext(chunks, k, feed.outcomes, batches, before, batch);
        batches := batches + [batch];
      }
      AllBatched(due, Max(scheduler.policy.maxConcurrent, 1), feed.outcomes, batches, pass.answers);
    }
  }
}
