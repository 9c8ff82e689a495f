/** The other table: what overtaking does to a session's row, and with it exactly when replay still
    matches memory. */
module SessionOvertakingTables {
  import opened Prelude
  import opened SessionModel
  import opened SessionStore
  import opened SessionInvariant
  import opened SessionSteps
  import opened SessionRestart
  import opened SessionOvertaking

  // ---------------------------------------------------------------------------------------
  // One session's row
  // ---------------------------------------------------------------------------------------

  function SessionAt(db: Db, sid: Sid): Option<SessionRow> {
    if sid in db.sessions then Some(db.sessions[sid]) else None
  }

  /** What a command does to its own row. */
  function Turned(row: Option<SessionRow>, c: Command): Option<SessionRow> {
    match c
    case InsertSession(_, given) => Some(given)
    case UpdateSessionProgress(_, currentGen, idleExp) =>
      if row.Some? then Some(row.value.(currentGen := currentGen, idleExp := idleExp)) else None
    case TombstoneSession(_, at) =>
      if row.None? then None
      else
        var first := if row.value.tombstonedAt.Some? then row.value.tombstonedAt else Some(at);
        Some(row.value.(status := Tombstoned, tombstonedAt := first))
    case _ => row
  }

  function TurnedAll(row: Option<SessionRow>, commands: seq<Command>): Option<SessionRow> {
    if commands == [] then row
    else Turned(TurnedAll(row, commands[..|commands| - 1]), commands[|commands| - 1])
  }

  lemma SessionExecutes(db: Db, c: Command, sid: Sid)
    ensures SessionAt(Execute(db, c), sid)
         == if About(c, OfSession(sid)) then Turned(SessionAt(db, sid), c) else SessionAt(db, sid)
  {
  }

  /** A session's row is what the commands about it make of it. */
  lemma {:induction false} SessionByItsOwn(log: seq<Command>, sid: Sid)
    ensures SessionAt(Replay(log), sid) == TurnedAll(None, On(log, OfSession(sid)))
  {
    if log != [] {
      var front, last := log[..|log| - 1], log[|log| - 1];
      var on := On(front, OfSession(sid));
      SessionByItsOwn(front, sid);
      SessionExecutes(Replay(front), last, sid);
      assert (on + [last])[..|on|] == on && on + [] == on;
    }
  }

  lemma {:induction false} TurnsOn(row: Option<SessionRow>, a: seq<Command>, b: seq<Command>)
    ensures TurnedAll(row, a + b) == TurnedAll(TurnedAll(row, a), b)
    decreases |b|
  {
    if b == [] {
      assert a + b == a;
    } else {
      assert (a + b)[..|a + b| - 1] == a + b[..|b| - 1];
      TurnsOn(row, a, b[..|b| - 1]);
    }
  }

  predicate NoInsertion(commands: seq<Command>) {
    forall c :: c in commands ==> !c.InsertSession?
  }

  lemma {:induction false} NothingToTurn(commands: seq<Command>)
    requires NoInsertion(commands)
    ensures TurnedAll(None, commands) == None
    decreases |commands|
  {
    if commands != [] {
      NothingToTurn(commands[..|commands| - 1]);
    }
  }

  // ---------------------------------------------------------------------------------------
  // What the row settles at
  // ---------------------------------------------------------------------------------------

  /** The generation and idle expiry the last slide leaves, or the row's own without any. */
  function Slid(row: SessionRow, commands: seq<Command>): (nat, Timestamp) {
    if commands == [] then (row.currentGen, row.idleExp)
    else
      var last := commands[|commands| - 1];
      if last.UpdateSessionProgress? then (last.currentGen, last.idleExp) else Slid(row, commands[..|commands| - 1])
  }

  /** The instant of the first logout. */
  function LoggedOutAt(commands: seq<Command>): Option<Timestamp> {
    if commands == [] then None
    else
      var before, last := LoggedOutAt(commands[..|commands| - 1]), commands[|commands| - 1];
      if before.None? && last.TombstoneSession? then Some(last.at) else before
  }

  function Settled(row: SessionRow, commands: seq<Command>): SessionRow {
    var out := LoggedOutAt(commands);
    row.(currentGen := Slid(row, commands).0, idleExp := Slid(row, commands).1,
         status := if out.Some? then Tombstoned else Alive, tombstonedAt := out)
  }

  lemma {:induction false} RowSettles(row: SessionRow, commands: seq<Command>)
    requires row.status.Alive? && row.tombstonedAt.None? && NoInsertion(commands)
    ensures TurnedAll(Some(row), commands) == Some(Settled(row, commands))
    decreases |commands|
  {
    if commands != [] {
      assert commands[|commands| - 1] in commands;
      RowSettles(row, commands[..|commands| - 1]);
    }
  }

  // ---------------------------------------------------------------------------------------
  // Since the insertion
  // ---------------------------------------------------------------------------------------

  /** What comes after the insertion of the row. */
  function SinceInsertion(commands: seq<Command>): seq<Command> {
    if commands == [] then [] else if commands[0].InsertSession? then commands[1..] else SinceInsertion(commands[1..])
  }

  lemma {:induction false} SinceIs(before: seq<Command>, insert: Command, after: seq<Command>)
    requires NoInsertion(before) && insert.InsertSession?
    ensures SinceInsertion(before + [insert] + after) == after
    decreases |before|
  {
    var all := before + [insert] + after;
    if before == [] {
      assert all[0] == insert && all[1..] == after;
    } else {
      assert all[0] == before[0] && before[0] in before && all[1..] == before[1..] + [insert] + after;
      SinceIs(before[1..], insert, after);
    }
  }

  /** Inserted once, alive, before anything else. */
  predicate Begun(commands: seq<Command>) {
    && commands != [] && commands[0].InsertSession?
    && commands[0].row.status.Alive? && commands[0].row.tombstonedAt.None?
    && NoInsertion(commands[1..])
  }

  lemma TheInsertion(decided: seq<Command>, c: Command)
    requires Begun(decided) && c in decided && c.InsertSession?
    ensures c == decided[0] && multiset(decided)[c] == 1
  {
    assert decided == [decided[0]] + decided[1..];
    Counted([decided[0]], decided[1..], c);
  }

  /** In whatever order they arrive, there is the one insertion. */
  lemma OneInsertion(arrived: seq<Command>, decided: seq<Command>) returns (i: nat)
    requires Begun(decided) && SameCommands(arrived, decided)
    ensures i < |arrived| && arrived[i] == decided[0]
    ensures NoInsertion(arrived[..i]) && NoInsertion(arrived[i + 1..])
  {
    var insert := decided[0];
    SameSize(arrived, decided);
    assert insert in decided;
    i :| 0 <= i < |arrived| && arrived[i] == insert;
    forall j | 0 <= j < |arrived| && arrived[j].InsertSession? ensures j == i {
      TheInsertion(decided, arrived[j]);
    }
  }

  /** So the row settles at what arrives since. */
  lemma ArrivesAt(arrived: seq<Command>, decided: seq<Command>)
    requires Begun(decided) && SameCommands(arrived, decided)
    ensures TurnedAll(None, arrived) == Some(Settled(decided[0].row, SinceInsertion(arrived)))
  {
    var i := OneInsertion(arrived, decided);
    var before, insert, after := arrived[..i], arrived[i], arrived[i + 1..];
    assert arrived == before + [insert] + after;
    NothingToTurn(before);
    TurnsOn(None, before, [insert]);
    TurnsOn(None, before + [insert], after);
    assert [insert][..0] == [];
    SinceIs(before, insert, after);
    RowSettles(insert.row, after);
  }

  /** What arrives since the insertion ends with the slide decided last, or its like, and logs out when
      it was decided to, or not at all. */
  predicate SessionInTime(plan: seq<Command>, sent: seq<Command>, sid: Sid) {
    var decided, arrived := On(plan, OfSession(sid)), On(sent, OfSession(sid));
    decided != [] && decided[0].InsertSession? ==>
      && Slid(decided[0].row, SinceInsertion(arrived)) == Slid(decided[0].row, SinceInsertion(decided))
      && LoggedOutAt(SinceInsertion(arrived)) == LoggedOutAt(SinceInsertion(decided))
  }

  lemma SessionComesOutExactly(plan: seq<Command>, sent: seq<Command>, sid: Sid)
    requires SameCommands(sent, plan)
    requires On(plan, OfSession(sid)) == [] || Begun(On(plan, OfSession(sid)))
    ensures SessionAt(Replay(sent), sid) == SessionAt(Replay(plan), sid) <==> SessionInTime(plan, sent, sid)
  {
    var decided, arrived := On(plan, OfSession(sid)), On(sent, OfSession(sid));
    SessionByItsOwn(plan, sid);
    SessionByItsOwn(sent, sid);
    SameOn(sent, plan, OfSession(sid));
    if decided == [] {
      SameSize(arrived, decided);
    } else {
      ArrivesAt(arrived, decided);
      ArrivesAt(decided, decided);
    }
  }

  // ---------------------------------------------------------------------------------------
  // What the map decides
  // ---------------------------------------------------------------------------------------

  /** A session's commands begin with its insertion; of no other session is anything said. */
  ghost predicate BeginsRight(y: System, sid: Sid) {
    var commands := On(y.log, OfSession(sid));
    if sid in y.sids then Begun(commands) else commands == []
  }

  ghost predicate AllBeginRight(y: System) {
    forall sid {:trigger BeginsRight(y, sid)} :: BeginsRight(y, sid)
  }

  /** Commands about sessions there already are. */
  ghost predicate AboutOld(commands: seq<Command>, sids: set<Sid>) {
    && NoInsertion(commands)
    && forall c :: c in commands && (c.UpdateSessionProgress? || c.TombstoneSession?) ==> c.sid in sids
  }

  lemma {:induction false} OnOld(commands: seq<Command>, sids: set<Sid>, sid: Sid)
    requires AboutOld(commands, sids)
    ensures NoInsertion(On(commands, OfSession(sid))) && (sid !in sids ==> On(commands, OfSession(sid)) == [])
    decreases |commands|
  {
    if commands != [] {
      assert commands[|commands| - 1] in commands;
      OnOld(commands[..|commands| - 1], sids, sid);
    }
  }

  lemma StillBegun(commands: seq<Command>, more: seq<Command>)
    requires Begun(commands) && NoInsertion(more)
    ensures Begun(commands + more)
  {
    assert (commands + more)[1..] == commands[1..] + more;
  }

  lemma GoesOnRight(y: System, y': System, more: seq<Command>)
    requires AllBeginRight(y) && y'.sids == y.sids && y'.log == y.log + more && AboutOld(more, y.sids)
    ensures AllBeginRight(y')
  {
    forall sid ensures BeginsRight(y', sid) {
      assert BeginsRight(y, sid);
      OnJoins(y.log, more, OfSession(sid));
      OnOld(more, y.sids, sid);
      if sid in y.sids {
        StillBegun(On(y.log, OfSession(sid)), On(more, OfSession(sid)));
      }
    }
  }

  lemma CreateBegins(p: SessionPolicy, y: System, op: Op)
    requires AllBeginRight(y) && op.Create? && Valid(y, op)
    ensures AllBeginRight(Step(p, y, op))
  {
    var e, y' := NewEntry(op.sid, op.custody, op.sub, op.now, p, op.newHash), Step(p, y, op);
    var insert, first := InsertSession(op.sid, NewRow(e, op.now)), InsertCommand(op.sid, e.gens[0]);
    forall sid ensures BeginsRight(y', sid) {
      assert BeginsRight(y, sid);
      assert y'.log == y.log + ([insert] + [first]);
      OnJoins(y.log, [insert] + [first], OfSession(sid));
      OnJoins([insert], [first], OfSession(sid));
      OnOne(insert, OfSession(sid));
      OnOne(first, OfSession(sid));
    }
  }

  lemma EffectsAreOld(sid: Sid, effects: Effects, sids: set<Sid>)
    ensures AboutOld(EffectCommands(sid, effects), sids)
  {
  }

  lemma RefreshGoesOn(p: SessionPolicy, y: System, hash: TokenHash, now: Timestamp, newHash: TokenHash)
    requires AllBeginRight(y) && y.store.sessions.Keys <= y.sids
    ensures AllBeginRight(AfterRefresh(p, y, hash, now, newHash))
  {
    var y' := AfterRefresh(p, y, hash, now, newHash);
    if !Finds(y, hash) || EntryRefresh(y.store.sessions[y.store.index[hash]], hash, now, p, newHash).result.Refused? {
      assert y.log + [] == y.log;
      GoesOnRight(y, y', []);
    } else {
      var sid := y.store.index[hash];
      var r := EntryRefresh(y.store.sessions[sid], hash, now, p, newHash);
      var progress := UpdateSessionProgress(sid, r.entry.currentGen, r.entry.idleExp);
      EffectsAreOld(sid, r.effects, y.sids);
      GoesOnRight(y, y', EffectCommands(sid, r.effects) + [progress]);
    }
  }

  lemma ReapGoesOn(p: SessionPolicy, y: System, sid: Sid, now: Timestamp)
    requires AllBeginRight(y)
    ensures AllBeginRight(AfterReap(p, y, sid, now))
  {
    if sid in y.store.sessions && !Collectible(y.store.sessions[sid], now, p) {
      var effects := Effects(None, None, Reap(y.store.sessions[sid], now, p).purged);
      EffectsAreOld(sid, effects, y.sids);
      GoesOnRight(y, AfterReap(p, y, sid, now), EffectCommands(sid, effects));
    } else {
      assert y.log + [] == y.log;
      GoesOnRight(y, AfterReap(p, y, sid, now), []);
    }
  }

  lemma TombstoneGoesOn(y: System, sid: Sid, now: Timestamp)
    requires AllBeginRight(y) && y.store.sessions.Keys <= y.sids
    ensures AllBeginRight(AfterTombstone(y, sid, now))
  {
    var more := if AfterTombstone(y, sid, now).log == y.log then [] else [TombstoneSession(sid, now)];
    assert y.log + [] == y.log;
    GoesOnRight(y, AfterTombstone(y, sid, now), more);
  }

  lemma SessionsKnown(p: SessionPolicy, y: System)
    requires Inv(p, y)
    ensures y.store.sessions.Keys <= y.sids
  {
    forall sid | sid in y.store.sessions ensures sid in y.sids {
      HasRow(p, y, Replay(y.log), sid);
    }
  }

  lemma StepGoesOn(p: SessionPolicy, y: System, op: Op)
    requires Inv(p, y) && AllBeginRight(y) && Valid(y, op)
    ensures AllBeginRight(Step(p, y, op))
  {
    SessionsKnown(p, y);
    match op
    case Create(_, _, _, _, _) => CreateBegins(p, y, op);
    case Refresh(hash, now, newHash) => RefreshGoesOn(p, y, hash, now, newHash);
    case ReapOne(sid, now) => ReapGoesOn(p, y, sid, now);
    case Tombstone(sid, now) => TombstoneGoesOn(y, sid, now);
    case _ =>
      assert y.log + [] == y.log;
      GoesOnRight(y, Step(p, y, op), []);
  }

  lemma {:induction false} RunGoesOn(p: SessionPolicy, y: System, ops: seq<Op>)
    requires Inv(p, y) && AllBeginRight(y) && ValidRun(p, y, ops)
    ensures AllBeginRight(Run(p, y, ops))
    decreases |ops|
  {
    if ops != [] {
      StepKeeps(p, y, ops[0]);
      StepGoesOn(p, y, ops[0]);
      RunGoesOn(p, Step(p, y, ops[0]), ops[1..]);
    }
  }

  // ---------------------------------------------------------------------------------------
  // Exactly when
  // ---------------------------------------------------------------------------------------

  /** A session's row is the one memory stands for if and only if, since its insertion, the slide that
      arrived last says what the one decided last says, and its logout, if any, arrived too. */
  lemma SessionMatchesExactly(p: SessionPolicy, y: System, s: Sending, sid: Sid)
    requires Delivered(p, y, s)
    ensures SessionAt(Replay(s.sent), sid) == SessionAt(Replay(y.log), sid) <==> SessionInTime(y.log, s.sent, sid)
  {
    var start, ops :| ValidRun(p, Initial(start), ops) && y == Run(p, Initial(start), ops);
    InitialInv(p, start);
    RunGoesOn(p, Initial(start), ops);
    DeliveredIsComplete(p, y, s);
    assert BeginsRight(y, sid);
    SessionComesOutExactly(y.log, s.sent, sid);
  }

  /** Everything about either table arrived in time. */
  ghost predicate AllInTime(plan: seq<Command>, sent: seq<Command>) {
    && (forall h {:trigger RowInTime(plan, sent, h)} :: RowInTime(plan, sent, h))
    && (forall sid {:trigger SessionInTime(plan, sent, sid)} :: SessionInTime(plan, sent, sid))
  }

  /** Exactly when replay still matches memory, after any run handed over in any interleaving. */
  lemma TablesMatchExactly(p: SessionPolicy, y: System, s: Sending)
    requires Delivered(p, y, s)
    ensures Replay(s.sent) == Replay(y.log) <==> AllInTime(y.log, s.sent)
  {
    ReplayMatchesExactly(p, y, s);
    forall sid
      ensures SessionAt(Replay(s.sent), sid) == SessionAt(Replay(y.log), sid) <==> SessionInTime(y.log, s.sent, sid)
    {
      SessionMatchesExactly(p, y, s, sid);
    }
    if AllInTime(y.log, s.sent) {
      forall sid ensures SessionAt(Replay(s.sent), sid) == SessionAt(Replay(y.log), sid) {
        assert SessionInTime(y.log, s.sent, sid);
      }
      SameSessions(Replay(s.sent), Replay(y.log));
    }
  }

  lemma SameSessions(db: Db, db': Db)
    requires forall sid {:trigger SessionAt(db, sid)} :: SessionAt(db, sid) == SessionAt(db', sid)
    ensures db.sessions == db'.sessions
  {
    forall sid ensures sid in db.sessions <==> sid in db'.sessions {
      assert SessionAt(db, sid) == SessionAt(db', sid);
    }
    forall sid | sid in db.sessions ensures db.sessions[sid] == db'.sessions[sid] {
      assert SessionAt(db, sid) == SessionAt(db', sid);
    }
  }
}
