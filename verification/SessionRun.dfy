/** Every operation, and so every run, keeps the whole-system invariant. */
module SessionRun {
  import opened Prelude
  import opened Custody
  import opened SessionModel
  import opened SessionStore
  import opened SessionEntryFacts
  import opened SessionInvariant

  /** What reaping purges is superseded and this session's. */
  lemma PurgedAreOld(p: SessionPolicy, ledger: map<TokenHash, GenRow>, sid: Sid, e: Entry, now: Timestamp)
    requires EntryOk(p, e) && OnLedger(ledger, sid, e)
    ensures Purgeable(ledger, sid, set h | h in Reap(e, now, p).purged)
  {
    var leaving := Leaving(e, now, p);
    PartsDistinct(e, now, p);
    StaysOrLeaves(e, now, p);
    ReapRetires(e, now, p);
    RetireHashes(e.retired, leaving, p.retiredMemory);
    forall h | h in Reap(e, now, p).purged
      ensures h in ledger && ledger[h].sid == sid && ledger[h].gen.supersededAt.Some?
    {
      if h in HashSet(leaving) {
        var g :| g in leaving && g.hash == h;
        LeavingIsOld(p, e, now, g);
        assert GenOnLedger(ledger, sid, g);
      } else {
        assert h in MarkHashes(e.retired);
        var m :| m in e.retired && m.hash == h;
        assert MarkOnLedger(ledger, sid, m);
      }
    }
  }

  /** The rows of session `x` stand unchanged. */
  ghost predicate Untouched(ledger: map<TokenHash, GenRow>, ledger': map<TokenHash, GenRow>, x: Sid) {
    forall h :: h in ledger && ledger[h].sid == x ==> h in ledger' && ledger'[h] == ledger[h]
  }

  /** History only grows. */
  predicate Later(y: System, y': System) {
    y.clock <= y'.clock && y.capped <= y'.capped && y.sids <= y'.sids && y.revoked <= y'.revoked
  }

  /** A session nothing touched keeps its standing. */
  lemma UntouchedKeeps(p: SessionPolicy, y: System, y': System, x: Sid, e: Entry)
    requires OnLedger(y.ledger, x, e) && Dated(p, y, x, e)
    requires Untouched(y.ledger, y'.ledger, x) && Later(y, y')
    ensures OnLedger(y'.ledger, x, e) && Dated(p, y', x, e)
  {
    forall g | g in e.gens ensures GenOnLedger(y'.ledger, x, g) {
      assert GenOnLedger(y.ledger, x, g);
    }
    forall m | m in e.retired ensures MarkOnLedger(y'.ledger, x, m) && Spent(p, y', m.hash) {
      assert MarkOnLedger(y.ledger, x, m) && Spent(p, y, m.hash);
    }
  }

  // ---------------------------------------------------------------------------------------
  // Create
  // ---------------------------------------------------------------------------------------

  /** The tables once a session and its first generation are inserted. */
  function SeededDb(db: Db, sid: Sid, row: SessionRow, g: Generation): Db {
    Db(db.sessions[sid := row], db.gens[g.hash := GenRow(sid, g)])
  }

  lemma CreatedDb(p: SessionPolicy, y: System, sid: Sid, custody: CustodyId, sub: string, now: Timestamp,
                  newHash: TokenHash)
    ensures var e := NewEntry(sid, custody, sub, now, p, newHash);
            Replay(Created(p, y, sid, custody, sub, now, newHash).log)
            == SeededDb(Replay(y.log), sid, NewRow(e, now), e.gens[0])
  {
    var e := NewEntry(sid, custody, sub, now, p, newHash);
    var a, b := InsertSession(sid, NewRow(e, now)), InsertCommand(sid, e.gens[0]);
    ReplayAppends(y.log, [a, b]);
    var db := Replay(y.log);
    assert ExecuteAll(db, [a, b]) == ExecuteAll(Execute(db, a), [b]);
    assert ExecuteAll(Execute(db, a), [b]) == ExecuteAll(Execute(Execute(db, a), b), []);
  }

  predicate Seeds(db: Db, ledger: map<TokenHash, GenRow>, sid: Sid, row: SessionRow, g: Generation) {
    && sid !in db.sessions && g.hash !in ledger
    && g.genNo == row.currentGen && g.supersededAt.None?
    && row.idleExp <= row.absoluteExp && (row.status.Tombstoned? <==> row.tombstonedAt.Some?)
  }

  lemma SeededLedger(db: Db, ledger: map<TokenHash, GenRow>, sid: Sid, row: SessionRow, g: Generation)
    requires LedgerOk(db, ledger) && Seeds(db, ledger, sid, row, g)
    ensures LedgerOk(SeededDb(db, sid, row, g), ledger[g.hash := GenRow(sid, g)])
  {
    var db', ledger' := SeededDb(db, sid, row, g), ledger[g.hash := GenRow(sid, g)];
    forall h | h in ledger' ensures LedgerRowOk(db', ledger'[h], h) {
      if h != g.hash {
        assert LedgerRowOk(db, ledger[h], h);
      }
    }
  }

  lemma SeededSessions(db: Db, ledger: map<TokenHash, GenRow>, sid: Sid, row: SessionRow, g: Generation, x: Sid)
    requires RowsOnLedger(db, ledger) && SessionRowsOk(db) && Seeds(db, ledger, sid, row, g)
    requires x == sid || x in db.sessions
    ensures SessionRowOk(SeededDb(db, sid, row, g), x)
  {
    var db' := SeededDb(db, sid, row, g);
    if x == sid {
      assert g.hash in db'.gens;
    } else {
      assert SessionRowOk(db, x);
      TopStays(db, db', x, db.sessions[x].currentGen);
    }
  }

  lemma SeededNumbers(db: Db, ledger: map<TokenHash, GenRow>, sid: Sid, row: SessionRow, g: Generation)
    requires LedgerOk(db, ledger) && NumbersUnique(ledger) && Seeds(db, ledger, sid, row, g)
    ensures NumbersUnique(ledger[g.hash := GenRow(sid, g)])
  {
    forall h | h in ledger ensures ledger[h].sid != sid {
      assert LedgerRowOk(db, ledger[h], h);
    }
  }

  lemma SeededSessionRows(db: Db, ledger: map<TokenHash, GenRow>, sid: Sid, row: SessionRow, g: Generation)
    requires RowsOnLedger(db, ledger) && SessionRowsOk(db) && Seeds(db, ledger, sid, row, g)
    ensures SessionRowsOk(SeededDb(db, sid, row, g))
  {
    forall x | x in SeededDb(db, sid, row, g).sessions ensures SessionRowOk(SeededDb(db, sid, row, g), x) {
      SeededSessions(db, ledger, sid, row, g, x);
    }
  }

  lemma SeededOnLedger(db: Db, ledger: map<TokenHash, GenRow>, sid: Sid, row: SessionRow, g: Generation)
    requires RowsOnLedger(db, ledger)
    ensures RowsOnLedger(SeededDb(db, sid, row, g), ledger[g.hash := GenRow(sid, g)])
  {
  }

  lemma SeededTables(db: Db, ledger: map<TokenHash, GenRow>, sid: Sid, row: SessionRow, g: Generation)
    requires TablesOk(db, ledger) && Seeds(db, ledger, sid, row, g)
    ensures TablesOk(SeededDb(db, sid, row, g), ledger[g.hash := GenRow(sid, g)])
  {
    SeededLedger(db, ledger, sid, row, g);
    SeededNumbers(db, ledger, sid, row, g);
    SeededSessionRows(db, ledger, sid, row, g);
    SeededOnLedger(db, ledger, sid, row, g);
  }

  lemma SeededRows(db: Db, ledger: map<TokenHash, GenRow>, sid: Sid, row: SessionRow, g: Generation, x: Sid, e: Entry)
    requires RowsOnLedger(db, ledger) && LedgerOk(db, ledger) && Seeds(db, ledger, sid, row, g)
    requires if x == sid then RowMatches(row, e) && AllHashes(e) == {g.hash}
             else RowsMatch(db, ledger, x, e) && g.hash !in AllHashes(e)
    ensures RowsMatch(SeededDb(db, sid, row, g), ledger[g.hash := GenRow(sid, g)], x, e)
  {
    var gens', ledger' := db.gens[g.hash := GenRow(sid, g)], ledger[g.hash := GenRow(sid, g)];
    assert GainsKey(db.gens, gens', g.hash, sid) && GainsKey(ledger, ledger', g.hash, sid);
    if x == sid {
      forall h | h in ledger ensures ledger[h].sid != sid {
        assert LedgerRowOk(db, ledger[h], h);
      }
      KeysGrow(db.gens, gens', ledger, ledger', sid, g.hash, sid, {});
    } else {
      KeysGrow(db.gens, gens', ledger, ledger', sid, g.hash, x, AllHashes(e));
    }
  }

  lemma NewEntryFacts(p: SessionPolicy, sid: Sid, custody: CustodyId, sub: string, now: Timestamp, newHash: TokenHash)
    ensures var e := NewEntry(sid, custody, sub, now, p, newHash);
            EntryOk(p, e) && AllHashes(e) == {newHash}
  {
    var e := NewEntry(sid, custody, sub, now, p, newHash);
    assert e.gens[0] in e.gens;
  }

  lemma IndexSeeded(s: Store, sid: Sid, e: Entry, newHash: TokenHash)
    requires IndexExact(s) && sid !in s.sessions && newHash !in s.index && AllHashes(e) == {newHash}
    ensures IndexExact(Store(s.sessions[sid := e], s.index[newHash := sid]))
  {
  }

  /** Hashes in use are on the ledger, and sessions in memory were created. */
  lemma InUse(p: SessionPolicy, y: System, db: Db)
    requires AllStand(p, y, db) && IndexExact(y.store)
    ensures y.store.index.Keys <= y.ledger.Keys
    ensures forall h :: h in y.store.index ==> y.ledger[h].sid == y.store.index[h]
    ensures y.store.sessions.Keys <= y.sids
  {
    forall x | x in y.store.sessions ensures x in y.sids {
      assert Stands(p, y, db, x, y.store.sessions[x]);
    }
    forall h | h in y.store.index ensures h in y.ledger && y.ledger[h].sid == y.store.index[h] {
      var x := y.store.index[h];
      assert Stands(p, y, db, x, y.store.sessions[x]);
      OnLedgerHashes(y.ledger, x, y.store.sessions[x]);
    }
  }

  lemma CreateKeepsOthers(p: SessionPolicy, y: System, db: Db, y': System, sid: Sid, row: SessionRow, g: Generation,
                          x: Sid, other: Entry)
    requires RowsOnLedger(db, y.ledger) && LedgerOk(db, y.ledger)
    requires Stands(p, y, db, x, other) && Seeds(db, y.ledger, sid, row, g) && Later(y, y') && x != sid
    requires y'.ledger == y.ledger[g.hash := GenRow(sid, g)]
    ensures Stands(p, y', SeededDb(db, sid, row, g), x, other)
  {
    UntouchedKeeps(p, y, y', x, other);
    OnLedgerHashes(y.ledger, x, other);
    SeededRows(db, y.ledger, sid, row, g, x, other);
  }

  lemma CreateKeepsNew(p: SessionPolicy, y': System, db: Db, ledger: map<TokenHash, GenRow>, sid: Sid,
                       row: SessionRow, e: Entry)
    requires RowsOnLedger(db, ledger) && LedgerOk(db, ledger)
    requires EntryOk(p, e) && |e.gens| == 1 && e.retired == [] && e.sid == sid && !e.custodyStatus.Dead?
    requires AllHashes(e) == {e.gens[0].hash} && RowMatches(row, e) && Seeds(db, ledger, sid, row, e.gens[0])
    requires y'.ledger == ledger[e.gens[0].hash := GenRow(sid, e.gens[0])] && sid in y'.sids
    ensures Stands(p, y', SeededDb(db, sid, row, e.gens[0]), sid, e)
  {
    SeededRows(db, ledger, sid, row, e.gens[0], sid, e);
  }

  lemma CreateKeepsAll(p: SessionPolicy, y: System, db: Db, y': System, sid: Sid, row: SessionRow, e: Entry)
    requires InvWith(p, y, db) && Later(y, y') && sid in y'.sids
    requires EntryOk(p, e) && |e.gens| == 1 && e.retired == [] && e.sid == sid && !e.custodyStatus.Dead?
    requires AllHashes(e) == {e.gens[0].hash} && RowMatches(row, e) && Seeds(db, y.ledger, sid, row, e.gens[0])
    requires y'.ledger == y.ledger[e.gens[0].hash := GenRow(sid, e.gens[0])]
    requires y'.store.sessions == y.store.sessions[sid := e]
    ensures AllStand(p, y', SeededDb(db, sid, row, e.gens[0]))
  {
    CreateKeepsNew(p, y', db, y.ledger, sid, row, e);
    forall x | x in y.store.sessions && x != sid
      ensures Stands(p, y', SeededDb(db, sid, row, e.gens[0]), x, y.store.sessions[x])
    {
      CreateKeepsOthers(p, y, db, y', sid, row, e.gens[0], x, y.store.sessions[x]);
    }
  }

  lemma CreateForgets(p: SessionPolicy, db: Db, y: System, y': System, sid: Sid, row: SessionRow, e: Entry)
    requires ForgottenAreOver(p, db, y) && Later(y, y') && y'.sids == y.sids + {sid} && e.gens != []
    requires y'.store.sessions == y.store.sessions[sid := e]
    ensures ForgottenAreOver(p, SeededDb(db, sid, row, e.gens[0]), y')
  {
  }

  lemma CreateKeepsWith(p: SessionPolicy, y: System, db: Db, sid: Sid, custody: CustodyId, sub: string,
                        now: Timestamp, newHash: TokenHash)
    requires InvWith(p, y, db) && y.clock <= now && sid !in y.sids && newHash !in y.ledger
    ensures var e := NewEntry(sid, custody, sub, now, p, newHash);
            InvWith(p, Created(p, y, sid, custody, sub, now, newHash), SeededDb(db, sid, NewRow(e, now), e.gens[0]))
  {
    var y' := Created(p, y, sid, custody, sub, now, newHash);
    var e := NewEntry(sid, custody, sub, now, p, newHash);
    var row := NewRow(e, now);
    NewEntryFacts(p, sid, custody, sub, now, newHash);
    CreateKeepsAll(p, y, db, y', sid, row, e);
    CreateForgets(p, db, y, y', sid, row, e);
    SeededTables(db, y.ledger, sid, row, e.gens[0]);
    InUse(p, y, db);
    IndexSeeded(y.store, sid, e, newHash);
  }

  lemma CreateKeeps(p: SessionPolicy, y: System, sid: Sid, custody: CustodyId, sub: string, now: Timestamp,
                    newHash: TokenHash)
    requires Inv(p, y) && y.clock <= now && sid !in y.sids && newHash !in y.ledger
    ensures Inv(p, Created(p, y, sid, custody, sub, now, newHash))
  {
    CreatedDb(p, y, sid, custody, sub, now, newHash);
    CreateKeepsWith(p, y, Replay(y.log), sid, custody, sub, now, newHash);
  }

  // ---------------------------------------------------------------------------------------
  // Reaping and minting
  // ---------------------------------------------------------------------------------------

  lemma ReapDated(p: SessionPolicy, y': System, sid: Sid, e: Entry, now: Timestamp)
    requires EntryOk(p, e) && OnLedger(y'.ledger, sid, e) && Dated(p, y', sid, e)
    requires y'.clock >= now && HashSet(Reap(e, now, p).capped) <= y'.capped
    ensures Dated(p, y', sid, Reap(e, now, p).entry)
  {
    forall m | m in Reap(e, now, p).entry.retired ensures m.hash in y'.ledger && Spent(p, y', m.hash) {
      if m in e.retired {
        assert Spent(p, y', m.hash);
      } else {
        var g := RetiredWasExpiredOrCapped(p, e, now, m);
        assert GenOnLedger(y'.ledger, sid, g);
      }
    }
  }

  lemma GrownDated(p: SessionPolicy, y: System, y': System, sid: Sid, e: Entry, now: Timestamp, newHash: TokenHash)
    requires EntryOk(p, e) && OnLedger(y.ledger, sid, e) && Dated(p, y, sid, e) && newHash !in y.ledger
    requires y'.ledger == Entered(y.ledger, sid, GrowEffects(e, now, p, newHash)) && Later(y, y')
    ensures Dated(p, y', sid, Grown(e, now, p, newHash))
  {
    TopOnLedger(y.ledger, sid, e);
    EnteredPointwise(y.ledger, sid, e, now, p, newHash);
    var top := e.gens[|e.gens| - 1];
    assert top in e.gens;
    forall m | m in e.retired ensures m.hash in y'.ledger && Spent(p, y', m.hash) {
      assert MarkOnLedger(y.ledger, sid, m) && Spent(p, y, m.hash) && m.hash != top.hash;
      assert y'.ledger[m.hash] == y.ledger[m.hash];
    }
  }

  /** A session stands after its own entry is reaped, its rows purged along. */
  lemma ReapStands(p: SessionPolicy, y': System, db: Db, sid: Sid, e: Entry, now: Timestamp)
    requires Stands(p, y', db, sid, e) && y'.clock >= now && HashSet(Reap(e, now, p).capped) <= y'.capped
    ensures var gone := set h | h in Reap(e, now, p).purged;
            Stands(p, y', db.(gens := db.gens - gone), sid, Reap(e, now, p).entry)
  {
    var gone := set h | h in Reap(e, now, p).purged;
    ReapKeepsOk(p, e, now);
    ReapPurges(p, e, now);
    ReapOnLedger(p, y'.ledger, sid, e, now);
    ReapDated(p, y', sid, e, now);
    PurgedAreOld(p, y'.ledger, sid, e, now);
    PurgeKeys(db.gens, y'.ledger, sid, gone, sid, AllHashes(e));
  }

  /** Another session stands when rows of session `sid` are purged. */
  lemma PurgeStands(p: SessionPolicy, y': System, db: Db, sid: Sid, gone: set<TokenHash>, x: Sid, e: Entry)
    requires Stands(p, y', db, x, e) && x != sid && Purgeable(y'.ledger, sid, gone)
    ensures Stands(p, y', db.(gens := db.gens - gone), x, e)
  {
    PurgeKeys(db.gens, y'.ledger, sid, gone, x, AllHashes(e));
  }

  lemma GrowUntouched(p: SessionPolicy, ledger: map<TokenHash, GenRow>, sid: Sid, e: Entry, now: Timestamp,
                      newHash: TokenHash, x: Sid)
    requires e.gens != [] && OnLedger(ledger, sid, e) && newHash !in ledger && x != sid
    ensures Untouched(ledger, Entered(ledger, sid, GrowEffects(e, now, p, newHash)), x)
  {
    TopOnLedger(ledger, sid, e);
    EnteredPointwise(ledger, sid, e, now, p, newHash);
  }

  /** The session that grows stands. */
  lemma GrowStands(p: SessionPolicy, y: System, db: Db, y': System, sid: Sid, e: Entry, now: Timestamp,
                   newHash: TokenHash, idleExp: Timestamp)
    requires Stands(p, y, db, sid, e) && RowsOnLedger(db, y.ledger) && newHash !in y.ledger && idleExp <= e.absoluteExp
    requires y'.ledger == Entered(y.ledger, sid, GrowEffects(e, now, p, newHash)) && Later(y, y')
    ensures Stands(p, y', GrownTables(db, sid, GrowEffects(e, now, p, newHash), e.currentGen + 1, idleExp), sid,
                   Grown(e, now, p, newHash).(idleExp := idleExp))
  {
    OnLedgerHashes(y.ledger, sid, e);
    assert newHash !in AllHashes(e);
    GrownOk(p, e, now, newHash);
    GrownOnLedger(p, y.ledger, sid, e, now, newHash);
    GrownDated(p, y, y', sid, e, now, newHash);
    GrowKeepsRows(p, db, y.ledger, sid, e, now, newHash, idleExp);
  }

  /** So do the others. */
  lemma GrowOthersStand(p: SessionPolicy, y: System, db: Db, y': System, sid: Sid, e: Entry, now: Timestamp,
                        newHash: TokenHash, idleExp: Timestamp, x: Sid, other: Entry)
    requires Stands(p, y, db, sid, e) && Stands(p, y, db, x, other) && x != sid
    requires RowsOnLedger(db, y.ledger) && newHash !in y.ledger
    requires y'.ledger == Entered(y.ledger, sid, GrowEffects(e, now, p, newHash)) && Later(y, y')
    ensures Stands(p, y', GrownTables(db, sid, GrowEffects(e, now, p, newHash), e.currentGen + 1, idleExp), x, other)
  {
    GrowUntouched(p, y.ledger, sid, e, now, newHash, x);
    UntouchedKeeps(p, y, y', x, other);
    GrowKeepsOtherRows(p, db, y.ledger, sid, e, now, newHash, idleExp, x, other);
  }

  /** Reaping an entry whose idle expiry was moved is moving the idle expiry of a reaped entry. */
  lemma ReapIgnoresIdle(e: Entry, now: Timestamp, p: SessionPolicy, idleExp: Timestamp)
    ensures var r, s := Reap(e, now, p), Reap(e.(idleExp := idleExp), now, p);
            s == Reaped(r.entry.(idleExp := idleExp), r.purged, r.capped)
  {
  }

  /** The tables after a refresh that minted. */
  function MintedDb(db: Db, sid: Sid, effects: Effects, currentGen: nat, idleExp: Timestamp): Db
    requires sid in db.sessions
  {
    var grown := GrownTables(db, sid, effects, currentGen, idleExp);
    grown.(gens := grown.gens - Gone(effects))
  }

  lemma OneMore(db: Db, commands: seq<Command>, last: Command)
    ensures ExecuteAll(db, commands + [last]) == Execute(ExecuteAll(db, commands), last)
  {
    ExecuteSplits(db, commands, [last]);
    var db' := Execute(ExecuteAll(db, commands), last);
    assert ExecuteAll(db', []) == db';
  }

  lemma MintedLog(db: Db, sid: Sid, effects: Effects, currentGen: nat, idleExp: Timestamp)
    requires sid in db.sessions && effects.added.Some? && effects.added.value.supersededAt.None?
    ensures ExecuteAll(db, EffectCommands(sid, effects) + [UpdateSessionProgress(sid, currentGen, idleExp)])
         == MintedDb(db, sid, effects, currentGen, idleExp)
  {
    var commands := EffectCommands(sid, effects);
    OneMore(db, commands, UpdateSessionProgress(sid, currentGen, idleExp));
    EffectsOnTables(db, sid, effects);
    ProgressOn(ExecuteAll(db, commands), db, Entered(db.gens, sid, effects) - Gone(effects), sid, currentGen, idleExp);
  }

  lemma ProgressOn(db1: Db, db: Db, gens: map<TokenHash, GenRow>, sid: Sid, currentGen: nat, idleExp: Timestamp)
    requires sid in db.sessions && db1 == db.(gens := gens)
    ensures Execute(db1, UpdateSessionProgress(sid, currentGen, idleExp))
         == Db(db.sessions[sid := db.sessions[sid].(currentGen := currentGen, idleExp := idleExp)], gens)
  {
  }

  lemma MintedStand(p: SessionPolicy, y: System, db: Db, y': System, sid: Sid, e: Entry, now: Timestamp,
                    newHash: TokenHash, idleExp: Timestamp, x: Sid, other: Entry)
    requires Stands(p, y, db, sid, e) && Stands(p, y, db, x, other) && (x == sid ==> other == e)
    requires RowsOnLedger(db, y.ledger) && newHash !in y.ledger && idleExp <= e.absoluteExp
    requires y'.ledger == Entered(y.ledger, sid, Mint(e, now, p, newHash).effects) && Later(y, y')
    requires y'.clock >= now && HashSet(Mint(e, now, p, newHash).capped) <= y'.capped
    ensures var m := Mint(e, now, p, newHash);
            Stands(p, y', MintedDb(db, sid, m.effects, e.currentGen + 1, idleExp), x,
                   if x == sid then m.entry.(idleExp := idleExp) else other)
  {
    var m, grown := Mint(e, now, p, newHash), Grown(e, now, p, newHash);
    var db1 := GrownTables(db, sid, GrowEffects(e, now, p, newHash), e.currentGen + 1, idleExp);
    MintOnLedger(p, y.ledger, sid, e, now, newHash);
    ReapIgnoresIdle(grown, now, p, idleExp);
    GrowStands(p, y, db, y', sid, e, now, newHash, idleExp);
    assert db1 == GrownTables(db, sid, m.effects, e.currentGen + 1, idleExp);
    if x == sid {
      ReapStands(p, y', db1, sid, grown.(idleExp := idleExp), now);
    } else {
      GrowOthersStand(p, y, db, y', sid, e, now, newHash, idleExp, x, other);
      PurgedAreOld(p, y'.ledger, sid, grown.(idleExp := idleExp), now);
      PurgeStands(p, y', db1, sid, Gone(m.effects), x, other);
    }
  }

  lemma MintedTables(p: SessionPolicy, y: System, db: Db, sid: Sid, e: Entry, now: Timestamp,
                     newHash: TokenHash, idleExp: Timestamp)
    requires Stands(p, y, db, sid, e) && TablesOk(db, y.ledger) && newHash !in y.ledger && idleExp <= e.absoluteExp
    ensures var m := Mint(e, now, p, newHash);
            TablesOk(MintedDb(db, sid, m.effects, e.currentGen + 1, idleExp), Entered(y.ledger, sid, m.effects))
  {
    var m, grown := Mint(e, now, p, newHash), Grown(e, now, p, newHash);
    MintOnLedger(p, y.ledger, sid, e, now, newHash);
    OnLedgerHashes(y.ledger, sid, e);
    assert newHash !in AllHashes(e);
    GrownOk(p, e, now, newHash);
    GrownOnLedger(p, y.ledger, sid, e, now, newHash);
    PurgedAreOld(p, Entered(y.ledger, sid, GrowEffects(e, now, p, newHash)), sid, grown, now);
    GrowKeepsTables(p, db, y.ledger, sid, e, now, newHash, idleExp);
    PurgeKeepsTables(GrownTables(db, sid, GrowEffects(e, now, p, newHash), e.currentGen + 1, idleExp),
                     Entered(y.ledger, sid, m.effects), sid, Gone(m.effects));
  }
}
