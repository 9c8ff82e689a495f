/** How long a session that is over goes on answering: the sweep forgets it exactly when its grace has
    passed, and until then a presented token is told why it is refused. */
module SessionLinger {
  import opened Prelude
  import opened SessionModel
  import opened SessionStore
  import opened SessionInvariant
  import opened SessionSteps
  import opened SessionRestart
  import opened SessionHistory
  import opened SessionVerdicts

  /** The session may be forgotten: it was logged out a grace ago, or its idle end is a grace ago. Without
      any grace, one that is dead where that kills goes at once. */
  predicate Forgettable(p: SessionPolicy, t: Told, now: Timestamp) {
    match t.out
    case Some(at) => now >= at + p.grace
    case None =>
      now >= t.IdleEnd(p) + p.grace || (p.grace == 0 && t.health.Dead? && p.onUpstreamRevoked.Kill?)
  }

  lemma CollectsAsTold(p: SessionPolicy, sid: Sid, e: Entry, t: Told, now: Timestamp)
    requires EntryTold(p, sid, e, t) && (t.out.Some? ==> t.out.value <= now)
    ensures Collectible(e, now, p) <==> Forgettable(p, t, now)
  {
    EndedAsTold(p, sid, e, t, now);
  }

  /** A sweep that comes to a session at `now` forgets it if and only if it may be. */
  lemma SweepForgetsExactly(p: SessionPolicy, y: System, told: map<Sid, Told>, sid: Sid, now: Timestamp)
    requires Inv(p, y) && AsTold(p, y, told) && y.clock <= now && sid in y.store.sessions && OutsDated(y.clock, told)
    ensures sid in told
    ensures var swept := AfterCollect(p, AfterReap(p, y, sid, now), sid, now);
            sid in swept.store.sessions <==> !Forgettable(p, told[sid], now)
  {
    EntryIsTold(p, y, told, sid);
    ReapKeeps(p, y, sid, now);
    ReapTold(p, y, told, sid, now);
    CollectsAsTold(p, sid, y.store.sessions[sid], told[sid], now);
    EntryIsTold(p, AfterReap(p, y, sid, now), told, sid);
    CollectsAsTold(p, sid, AfterReap(p, y, sid, now).store.sessions[sid], told[sid], now);
  }

  // ---------------------------------------------------------------------------------------
  // Over runs
  // ---------------------------------------------------------------------------------------

  /** No logout is told of the future. */
  ghost predicate OutsDated(clock: Timestamp, told: map<Sid, Told>) {
    forall sid {:trigger told[sid].out} :: sid in told && told[sid].out.Some? ==> told[sid].out.value <= clock
  }

  /** Why a session that was created is no longer in memory: its grace is over; or it was logged out and a
      boot left it behind; or its custody died and there is no grace. */
  predicate Due(p: SessionPolicy, y: System, t: Told, booted: bool) {
    match t.out
    case Some(at) => booted || y.clock >= at + p.grace
    case None => y.clock >= t.IdleEnd(p) + p.grace || (p.grace == 0 && EndedBy(p, y, t.custody))
  }

  ghost predicate ForgottenAreDue(p: SessionPolicy, y: System, told: map<Sid, Told>, booted: bool) {
    && OutsDated(y.clock, told)
    && forall sid {:trigger Due(p, y, told[sid], booted)} :: sid in told && sid !in y.store.sessions ==>
         Due(p, y, told[sid], booted)
  }

  predicate Boots(ops: seq<Op>) {
    exists i :: 0 <= i < |ops| && ops[i].Restart?
  }

  /** A step that forgets nothing, and tells nothing new of what was forgotten. */
  lemma StillDue(p: SessionPolicy, y: System, y': System, told: map<Sid, Told>, told': map<Sid, Told>, booted: bool)
    requires ForgottenAreDue(p, y, told, booted) && y.clock <= y'.clock && y.revoked <= y'.revoked
    requires OutsDated(y'.clock, told') && y.store.sessions.Keys <= y'.store.sessions.Keys
    requires forall sid :: sid in told' && sid !in y'.store.sessions ==>
               sid in told && told'[sid] == told[sid].(health := told'[sid].health)
    ensures ForgottenAreDue(p, y', told', booted)
  {
    forall sid | sid in told' && sid !in y'.store.sessions ensures Due(p, y', told'[sid], booted) {
      assert Due(p, y, told[sid], booted);
    }
  }

  lemma OutsPass(p: SessionPolicy, y: System, told: map<Sid, Told>, op: Op)
    requires OutsDated(y.clock, told) && Valid(y, op) && y.clock <= Step(p, y, op).clock
    requires op.Tombstone? ==> Step(p, y, op).clock == op.now
    ensures OutsDated(Step(p, y, op).clock, Tell(p, y.store, told, op))
  {
  }

  lemma ClockOf(p: SessionPolicy, y: System, op: Op)
    requires Valid(y, op)
    ensures y.clock <= Step(p, y, op).clock && y.revoked <= Step(p, y, op).revoked
    ensures op.Tombstone? ==> Step(p, y, op).clock == op.now
    ensures !op.CollectOne? && !op.Restart? ==> y.store.sessions.Keys <= Step(p, y, op).store.sessions.Keys
  {
  }

  lemma CollectIsDue(p: SessionPolicy, y: System, told: map<Sid, Told>, sid: Sid, now: Timestamp, booted: bool)
    requires Inv(p, y) && AsTold(p, y, told) && ForgottenAreDue(p, y, told, booted) && y.clock <= now
    ensures ForgottenAreDue(p, AfterCollect(p, y, sid, now), told, booted)
  {
    var y' := AfterCollect(p, y, sid, now);
    forall x | x in told && x !in y'.store.sessions ensures Due(p, y', told[x], booted) {
      if x in y.store.sessions {
        EntryIsTold(p, y, told, x);
        HasRow(p, y, Replay(y.log), x);
        CollectsAsTold(p, x, y.store.sessions[x], told[x], now);
      } else {
        assert Due(p, y, told[x], booted);
      }
    }
  }

  /** A boot brings back every session not logged out. */
  lemma BootIsDue(p: SessionPolicy, y: System, told: map<Sid, Told>, booted: bool)
    requires Inv(p, y) && AsTold(p, y, told) && ForgottenAreDue(p, y, told, booted)
    ensures ForgottenAreDue(p, Step(p, y, Restart), Tell(p, y.store, told, Restart), true)
  {
    var db, y', told' := Replay(y.log), Step(p, y, Restart), Tell(p, y.store, told, Restart);
    forall x | x in told' && x !in y'.store.sessions ensures Due(p, y', told'[x], true) {
      assert RowTold(p, db.sessions[x], told[x]) && SessionRowOk(db, x);
      HasTopRow(db, x);
    }
  }

  lemma HasTopRow(db: Db, sid: Sid)
    requires sid in db.sessions && SessionRowOk(db, sid)
    ensures RowsOf(db, sid) != {}
  {
    var h :| h in db.gens && db.gens[h].sid == sid && db.gens[h].gen.genNo == db.sessions[sid].currentGen;
    assert db.gens[h].gen in RowsOf(db, sid);
  }

  lemma StepIsDue(p: SessionPolicy, y: System, told: map<Sid, Told>, op: Op, booted: bool)
    requires Inv(p, y) && AsTold(p, y, told) && ForgottenAreDue(p, y, told, booted) && Valid(y, op)
    ensures ForgottenAreDue(p, Step(p, y, op), Tell(p, y.store, told, op), booted || op.Restart?)
  {
    ClockOf(p, y, op);
    OutsPass(p, y, told, op);
    match op
    case CollectOne(sid, now) => CollectIsDue(p, y, told, sid, now, booted);
    case Restart => BootIsDue(p, y, told, booted);
    case Refresh(hash, now, newHash) =>
      ServedAsTold(p, y, told, hash, now, newHash);
      StillDue(p, y, Step(p, y, op), told, Tell(p, y.store, told, op), booted);
    case _ => StillDue(p, y, Step(p, y, op), told, Tell(p, y.store, told, op), booted);
  }

  lemma {:induction false} RunIsDue(p: SessionPolicy, y: System, told: map<Sid, Told>, ops: seq<Op>, booted: bool)
    requires Inv(p, y) && AsTold(p, y, told) && ForgottenAreDue(p, y, told, booted) && ValidRun(p, y, ops)
    ensures ForgottenAreDue(p, Run(p, y, ops), TellAll(p, y, told, ops), booted || Boots(ops))
    decreases |ops|
  {
    if ops != [] {
      StepTold(p, y, told, ops[0]);
      StepKeeps(p, y, ops[0]);
      StepIsDue(p, y, told, ops[0], booted);
      RunIsDue(p, Step(p, y, ops[0]), Tell(p, y.store, told, ops[0]), ops[1..], booted || ops[0].Restart?);
      BootsFirst(ops);
    }
  }

  lemma BootsFirst(ops: seq<Op>)
    requires ops != []
    ensures Boots(ops) <==> ops[0].Restart? || Boots(ops[1..])
  {
    if i :| 0 <= i < |ops| && ops[i].Restart? {
      assert i > 0 ==> ops[1..][i - 1].Restart?;
    }
    if i :| 0 <= i < |ops[1..]| && ops[1..][i].Restart? {
      assert ops[i + 1].Restart?;
    }
  }

  /** Over any run no session is forgotten early: one that was created and is not due is in memory, its newest token
      leads to it, and every token that does is answered with the verdict told, never as unknown. */
  lemma NeverForgottenEarly(p: SessionPolicy, start: Timestamp, ops: seq<Op>, sid: Sid, now: Timestamp)
    requires ValidRun(p, Initial(start), ops) && Run(p, Initial(start), ops).clock <= now
    requires var y, told := Run(p, Initial(start), ops), TellAll(p, Initial(start), map[], ops);
             sid in told && !Due(p, y, told[sid], Boots(ops))
    ensures var y, told := Run(p, Initial(start), ops), TellAll(p, Initial(start), map[], ops);
            && sid in y.store.sessions && told[sid].mints != []
            && (var newest := told[sid].mints[|told[sid].mints| - 1].hash;
                newest in y.store.index && y.store.index[newest] == sid)
            && (forall h :: h in y.store.index && y.store.index[h] == sid ==>
                  h in y.ledger && TellsOf(p, y, told, h, Resolve(p, y.store, h, now), now))
  {
    var y, told := Run(p, Initial(start), ops), TellAll(p, Initial(start), map[], ops);
    RunIsTold(p, start, ops);
    InitialInv(p, start);
    assert AsTold(p, Initial(start), map[]);
    RunIsDue(p, Initial(start), map[], ops, false);
    NewestVerdict(p, y, told, sid, now);
    forall h | h in y.store.index && y.store.index[h] == sid
      ensures h in y.ledger && TellsOf(p, y, told, h, Resolve(p, y.store, h, now), now)
    {
      VerdictIsTold(p, y, told, h, now);
    }
  }

  /** What a token of a session in memory resolves to once the session is over. */
  lemma OverAnswers(p: SessionPolicy, y: System, told: map<Sid, Told>, hash: TokenHash, now: Timestamp)
    requires Inv(p, y) && AsTold(p, y, told) && y.clock <= now && hash in y.ledger
    requires y.ledger[hash].sid in y.store.sessions && y.ledger[hash].sid in told
    ensures y.ledger[hash].gen.supersededAt.None? ==> hash in y.store.index
    ensures var (sid, why) := (y.ledger[hash].sid, Ended(p, told[y.ledger[hash].sid], now));
            why.Some? ==> Resolve(p, y.store, hash, now)
                          == if hash in y.store.index then HardExpired(sid, why.value) else Unknown
  {
    var sid := y.ledger[hash].sid;
    NewestVerdict(p, y, told, sid, now);
    TokenTold(p, y.ledger, told, hash);
    VerdictIsTold(p, y, told, hash, now);
  }

  /** So a session logged out at `at` answers every token that still leads to it with exactly that, over any
      run without a boot that ends before `at` plus the grace; its newest token always does. */
  lemma LogoutLingers(p: SessionPolicy, start: Timestamp, ops: seq<Op>, sid: Sid, hash: TokenHash, now: Timestamp)
    requires ValidRun(p, Initial(start), ops) && !Boots(ops) && Run(p, Initial(start), ops).clock <= now
    requires var y, told := Run(p, Initial(start), ops), TellAll(p, Initial(start), map[], ops);
             && sid in told && told[sid].out.Some? && y.clock < told[sid].out.value + p.grace
             && hash in y.ledger && y.ledger[hash].sid == sid
    ensures var y := Run(p, Initial(start), ops);
            && Resolve(p, y.store, hash, now)
               == (if hash in y.store.index then HardExpired(sid, LoggedOut) else Unknown)
            && (y.ledger[hash].gen.supersededAt.None? ==> hash in y.store.index)
  {
    NeverForgottenEarly(p, start, ops, sid, now);
    RunIsTold(p, start, ops);
    OverAnswers(p, Run(p, Initial(start), ops), TellAll(p, Initial(start), map[], ops), hash, now);
  }

  /** And one past its dates, or dead where that kills, answers as expired, and why, until its grace is over. */
  lemma ExpiredLingers(p: SessionPolicy, start: Timestamp, ops: seq<Op>, sid: Sid, hash: TokenHash, now: Timestamp)
    requires ValidRun(p, Initial(start), ops) && Run(p, Initial(start), ops).clock <= now && p.grace > 0
    requires var y, told := Run(p, Initial(start), ops), TellAll(p, Initial(start), map[], ops);
             && sid in told && told[sid].out.None? && y.clock < told[sid].IdleEnd(p) + p.grace
             && hash in y.ledger && y.ledger[hash].sid == sid
    ensures var y, t := Run(p, Initial(start), ops), TellAll(p, Initial(start), map[], ops)[sid];
            && (y.ledger[hash].gen.supersededAt.None? ==> hash in y.store.index)
            && (hash in y.store.index ==>
                  var v := Resolve(p, y.store, hash, now);
                  && (t.bornAt + p.absoluteTtl <= now ==> v == HardExpired(sid, Absolute))
                  && (t.lastUse + p.idleTtl <= now < t.bornAt + p.absoluteTtl ==> v == HardExpired(sid, Idle))
                  && (now < t.IdleEnd(p) && t.health.Dead? && p.onUpstreamRevoked.Kill? ==>
                        v == HardExpired(sid, UpstreamRevoked)))
  {
    NeverForgottenEarly(p, start, ops, sid, now);
    RunIsTold(p, start, ops);
    OverAnswers(p, Run(p, Initial(start), ops), TellAll(p, Initial(start), map[], ops), hash, now);
  }
}
