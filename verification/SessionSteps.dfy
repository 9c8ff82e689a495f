/** Each operation on the session map keeps the whole-system invariant, and so does a boot. */
module SessionSteps {
  import opened Prelude
  import opened Custody
  import opened SessionModel
  import opened SessionStore
  import opened SessionEntryFacts
  import opened SessionInvariant
  import opened SessionRun

  // ---------------------------------------------------------------------------------------
  // Refresh
  // ---------------------------------------------------------------------------------------

  /** Session `sid` now has entry `e`; nothing else moved but the clock and the record of the cap. */
  predicate Replaces(y: System, y': System, sid: Sid, e: Entry, now: Timestamp) {
    && y.clock <= now && y'.clock == now
    && sid in y.store.sessions && y'.store.sessions == y.store.sessions[sid := e]
    && y.capped <= y'.capped && y'.sids == y.sids && y'.revoked == y.revoked
  }

  lemma MintedAllStand(p: SessionPolicy, y: System, db: Db, y': System, sid: Sid, e: Entry, now: Timestamp,
                       newHash: TokenHash, idleExp: Timestamp)
    requires AllStand(p, y, db) && RowsOnLedger(db, y.ledger) && newHash !in y.ledger && idleExp <= e.absoluteExp
    requires e.gens != [] && Replaces(y, y', sid, Mint(e, now, p, newHash).entry.(idleExp := idleExp), now)
    requires e == y.store.sessions[sid] && sid in db.sessions
    requires y'.ledger == Entered(y.ledger, sid, Mint(e, now, p, newHash).effects)
    requires HashSet(Mint(e, now, p, newHash).capped) <= y'.capped
    ensures AllStand(p, y', MintedDb(db, sid, Mint(e, now, p, newHash).effects, e.currentGen + 1, idleExp))
  {
    assert Stands(p, y, db, sid, e);
    forall x | x in y'.store.sessions
      ensures Stands(p, y', MintedDb(db, sid, Mint(e, now, p, newHash).effects, e.currentGen + 1, idleExp), x,
                     y'.store.sessions[x])
    {
      assert Stands(p, y, db, x, y.store.sessions[x]);
      MintedStand(p, y, db, y', sid, e, now, newHash, idleExp, x, y.store.sessions[x]);
    }
  }

  lemma MintedIndex(p: SessionPolicy, s: Store, ledger: map<TokenHash, GenRow>, sid: Sid, e: Entry, now: Timestamp,
                    newHash: TokenHash, idleExp: Timestamp)
    requires IndexExact(s) && sid in s.sessions && s.sessions[sid] == e && EntryOk(p, e)
    requires newHash !in s.index
    ensures var m := Mint(e, now, p, newHash);
            IndexExact(Store(s.sessions[sid := m.entry.(idleExp := idleExp)], AppliedIndex(s.index, sid, m.effects)))
  {
    var m := Mint(e, now, p, newHash);
    assert newHash !in AllHashes(e);
    MintFacts(p, e, now, newHash);
    assert AllHashes(m.entry.(idleExp := idleExp)) == AllHashes(m.entry);
    assert Accounts(e, m.entry.(idleExp := idleExp), m.effects);
    IndexMutated(s, sid, m.entry.(idleExp := idleExp), m.effects);
  }

  /** Sessions in memory have a row. */
  lemma HasRow(p: SessionPolicy, y: System, db: Db, sid: Sid)
    requires AllStand(p, y, db) && sid in y.store.sessions
    ensures Stands(p, y, db, sid, y.store.sessions[sid]) && sid in db.sessions
  {
  }

  lemma ReplacedForgets(p: SessionPolicy, db: Db, db': Db, y: System, y': System, sid: Sid, e: Entry, now: Timestamp)
    requires ForgottenAreOver(p, db, y) && Replaces(y, y', sid, e, now)
    requires sid in db.sessions && db'.sessions.Keys == db.sessions.Keys
    requires forall x :: x in db.sessions && x != sid ==> db'.sessions[x] == db.sessions[x]
    ensures ForgottenAreOver(p, db', y')
  {
  }

  lemma MintedRest(p: SessionPolicy, y: System, db: Db, y': System, sid: Sid, e: Entry, now: Timestamp,
                   newHash: TokenHash, idleExp: Timestamp)
    requires InvWith(p, y, db) && newHash !in y.ledger && idleExp <= e.absoluteExp
    requires e.gens != [] && Replaces(y, y', sid, Mint(e, now, p, newHash).entry.(idleExp := idleExp), now)
    requires e == y.store.sessions[sid] && sid in db.sessions
    requires y'.store.index == AppliedIndex(y.store.index, sid, Mint(e, now, p, newHash).effects)
    ensures IndexExact(y'.store)
    ensures TablesOk(MintedDb(db, sid, Mint(e, now, p, newHash).effects, e.currentGen + 1, idleExp),
                     Entered(y.ledger, sid, Mint(e, now, p, newHash).effects))
  {
    HasRow(p, y, db, sid);
    InUse(p, y, db);
    MintedIndex(p, y.store, y.ledger, sid, e, now, newHash, idleExp);
    MintedTables(p, y, db, sid, e, now, newHash, idleExp);
  }

  /** What a refresh that mints does to the map. */
  predicate MintedTo(p: SessionPolicy, y: System, y': System, sid: Sid, e: Entry, now: Timestamp, newHash: TokenHash,
                     idleExp: Timestamp) {
    && e.gens != [] && Replaces(y, y', sid, Mint(e, now, p, newHash).entry.(idleExp := idleExp), now)
    && e == y.store.sessions[sid]
    && y'.ledger == Entered(y.ledger, sid, Mint(e, now, p, newHash).effects)
    && y'.store.index == AppliedIndex(y.store.index, sid, Mint(e, now, p, newHash).effects)
    && HashSet(Mint(e, now, p, newHash).capped) <= y'.capped
  }

  lemma MintKeepsWith(p: SessionPolicy, y: System, db: Db, y': System, sid: Sid, e: Entry, now: Timestamp,
                      newHash: TokenHash, idleExp: Timestamp)
    requires InvWith(p, y, db) && newHash !in y.ledger && idleExp <= e.absoluteExp
    requires MintedTo(p, y, y', sid, e, now, newHash, idleExp) && sid in db.sessions
    ensures InvWith(p, y', MintedDb(db, sid, Mint(e, now, p, newHash).effects, e.currentGen + 1, idleExp))
  {
    MintedAllStand(p, y, db, y', sid, e, now, newHash, idleExp);
    MintedRest(p, y, db, y', sid, e, now, newHash, idleExp);
    ReplacedForgets(p, db, MintedDb(db, sid, Mint(e, now, p, newHash).effects, e.currentGen + 1, idleExp), y, y', sid,
                    Mint(e, now, p, newHash).entry.(idleExp := idleExp), now);
  }

  /** The tables once a session row has moved its expiry, or been buried. */
  function RowSet(db: Db, sid: Sid, row: SessionRow): Db {
    db.(sessions := db.sessions[sid := row])
  }

  /** A row changed without touching its generation counter or the session's generations. */
  predicate SameSession(db: Db, sid: Sid, row: SessionRow) {
    && sid in db.sessions && row.currentGen == db.sessions[sid].currentGen
    && row.idleExp <= row.absoluteExp && (row.status.Tombstoned? <==> row.tombstonedAt.Some?)
  }

  lemma RowSetLedger(db: Db, ledger: map<TokenHash, GenRow>, sid: Sid, row: SessionRow)
    requires LedgerOk(db, ledger) && SameSession(db, sid, row)
    ensures LedgerOk(RowSet(db, sid, row), ledger)
  {
    forall h | h in ledger ensures LedgerRowOk(RowSet(db, sid, row), ledger[h], h) {
      assert LedgerRowOk(db, ledger[h], h);
    }
  }

  lemma RowSetTables(db: Db, ledger: map<TokenHash, GenRow>, sid: Sid, row: SessionRow)
    requires TablesOk(db, ledger) && SameSession(db, sid, row)
    ensures TablesOk(RowSet(db, sid, row), ledger)
  {
    var db' := RowSet(db, sid, row);
    RowSetLedger(db, ledger, sid, row);
    forall x | x in db'.sessions ensures SessionRowOk(db', x) {
      assert SessionRowOk(db, x);
      TopStays(db, db', x, db.sessions[x].currentGen);
    }
  }

  /** An entry replaced by one with the same generations and marks, its row along with it. */
  predicate SameGens(e: Entry, e': Entry) {
    && e'.gens == e.gens && e'.retired == e.retired && e'.currentGen == e.currentGen && e'.custody == e.custody
    && e'.custodyStatus == e.custodyStatus && e'.sid == e.sid
  }

  lemma SameGensStands(p: SessionPolicy, y: System, db: Db, y': System, sid: Sid, e: Entry, e': Entry, row: SessionRow)
    requires Stands(p, y, db, sid, e) && SameGens(e, e') && EntryOk(p, e') && RowMatches(row, e')
    requires Later(y, y') && y'.ledger == y.ledger
    ensures Stands(p, y', RowSet(db, sid, row), sid, e')
  {
    UntouchedKeeps(p, y, y', sid, e);
    assert AllHashes(e') == AllHashes(e);
  }

  lemma RowSetOthersStand(p: SessionPolicy, y: System, db: Db, y': System, sid: Sid, row: SessionRow, x: Sid,
                          other: Entry)
    requires Stands(p, y, db, x, other) && x != sid && Later(y, y') && y'.ledger == y.ledger
    ensures Stands(p, y', RowSet(db, sid, row), x, other)
  {
    UntouchedKeeps(p, y, y', x, other);
  }

  lemma SameIndex(s: Store, sid: Sid, e': Entry)
    requires IndexExact(s) && sid in s.sessions && AllHashes(e') == AllHashes(s.sessions[sid])
    ensures IndexExact(s.(sessions := s.sessions[sid := e']))
  {
  }

  lemma RowSetAllStand(p: SessionPolicy, y: System, db: Db, y': System, sid: Sid, e': Entry, row: SessionRow)
    requires AllStand(p, y, db) && sid in y.store.sessions && y'.store.sessions == y.store.sessions[sid := e']
    requires SameGens(y.store.sessions[sid], e') && EntryOk(p, e') && RowMatches(row, e')
    requires Later(y, y') && y'.ledger == y.ledger
    ensures AllStand(p, y', RowSet(db, sid, row))
  {
    forall x | x in y'.store.sessions ensures Stands(p, y', RowSet(db, sid, row), x, y'.store.sessions[x]) {
      HasRow(p, y, db, x);
      if x == sid {
        SameGensStands(p, y, db, y', sid, y.store.sessions[sid], e', row);
      } else {
        RowSetOthersStand(p, y, db, y', sid, row, x, y.store.sessions[x]);
      }
    }
  }

  /** A row and its entry changed together, generations and marks left alone. */
  lemma RowSetKeeps(p: SessionPolicy, y: System, db: Db, y': System, sid: Sid, e': Entry, row: SessionRow,
                    now: Timestamp)
    requires InvWith(p, y, db) && Replaces(y, y', sid, e', now) && SameGens(y.store.sessions[sid], e')
    requires EntryOk(p, e') && RowMatches(row, e') && SameSession(db, sid, row)
    requires y'.store == y.store.(sessions := y.store.sessions[sid := e']) && y'.ledger == y.ledger
    ensures InvWith(p, y', RowSet(db, sid, row))
  {
    RowSetAllStand(p, y, db, y', sid, e', row);
    SameIndex(y.store, sid, e');
    RowSetTables(db, y.ledger, sid, row);
    ReplacedForgets(p, db, RowSet(db, sid, row), y, y', sid, e', now);
  }

  /** Time passing keeps everything. */
  lemma WaitKeeps(p: SessionPolicy, y: System, db: Db, now: Timestamp)
    requires InvWith(p, y, db) && y.clock <= now
    ensures InvWith(p, y.(clock := now), db)
  {
    forall x | x in y.store.sessions ensures Stands(p, y.(clock := now), db, x, y.store.sessions[x]) {
      assert Stands(p, y, db, x, y.store.sessions[x]);
      UntouchedKeeps(p, y, y.(clock := now), x, y.store.sessions[x]);
    }
  }

  lemma RefreshMintsTo(p: SessionPolicy, y: System, hash: TokenHash, now: Timestamp, newHash: TokenHash)
    requires y.clock <= now && Finds(y, hash)
    requires var e := y.store.sessions[y.store.index[hash]];
             EntryRefresh(e, hash, now, p, newHash).result.Issued? && !Coalesces(e, now, p)
    ensures var sid := y.store.index[hash];
            var e := y.store.sessions[sid];
            MintedTo(p, y, AfterRefresh(p, y, hash, now, newHash), sid, e, now, newHash,
                     Min(now + p.idleTtl, e.absoluteExp))
  {
    var sid := y.store.index[hash];
    MintKeepsCurrent(y.store.sessions[sid], now, p, newHash);
  }

  lemma RefreshMintsEmits(p: SessionPolicy, y: System, hash: TokenHash, now: Timestamp, newHash: TokenHash)
    requires Finds(y, hash)
    requires var e := y.store.sessions[y.store.index[hash]];
             EntryRefresh(e, hash, now, p, newHash).result.Issued? && !Coalesces(e, now, p)
    ensures var sid := y.store.index[hash];
            var e := y.store.sessions[sid];
            AfterRefresh(p, y, hash, now, newHash).log
            == y.log + (EffectCommands(sid, Mint(e, now, p, newHash).effects)
                        + [UpdateSessionProgress(sid, e.currentGen + 1, Min(now + p.idleTtl, e.absoluteExp))])
  {
    MintKeepsCurrent(y.store.sessions[y.store.index[hash]], now, p, newHash);
  }

  /** What it does to the tables. */
  predicate MintedLogs(p: SessionPolicy, y: System, y': System, sid: Sid, e: Entry, now: Timestamp,
                       newHash: TokenHash, idleExp: Timestamp)
    requires e.gens != []
  {
    var db := Replay(y.log);
    sid in db.sessions ==>
      Replay(y'.log) == MintedDb(db, sid, Mint(e, now, p, newHash).effects, e.currentGen + 1, idleExp)
  }

  lemma RefreshMintsLog(p: SessionPolicy, y: System, hash: TokenHash, now: Timestamp, newHash: TokenHash)
    requires Finds(y, hash)
    requires var e := y.store.sessions[y.store.index[hash]];
             EntryRefresh(e, hash, now, p, newHash).result.Issued? && !Coalesces(e, now, p)
    ensures var sid := y.store.index[hash];
            var e := y.store.sessions[sid];
            MintedLogs(p, y, AfterRefresh(p, y, hash, now, newHash), sid, e, now, newHash,
                       Min(now + p.idleTtl, e.absoluteExp))
  {
    var db, sid := Replay(y.log), y.store.index[hash];
    var e := y.store.sessions[sid];
    var effects, idleExp := Mint(e, now, p, newHash).effects, Min(now + p.idleTtl, e.absoluteExp);
    RefreshMintsEmits(p, y, hash, now, newHash);
    ReplayAppends(y.log, EffectCommands(sid, effects) + [UpdateSessionProgress(sid, e.currentGen + 1, idleExp)]);
    if sid in db.sessions {
      MintedLog(db, sid, effects, e.currentGen + 1, idleExp);
    }
  }

  lemma MintKeeps(p: SessionPolicy, y: System, y': System, sid: Sid, e: Entry, now: Timestamp, newHash: TokenHash,
                  idleExp: Timestamp)
    requires Inv(p, y) && newHash !in y.ledger && idleExp <= e.absoluteExp
    requires MintedTo(p, y, y', sid, e, now, newHash, idleExp) && MintedLogs(p, y, y', sid, e, now, newHash, idleExp)
    ensures Inv(p, y')
  {
    HasRow(p, y, Replay(y.log), sid);
    MintKeepsWith(p, y, Replay(y.log), y', sid, e, now, newHash, idleExp);
  }

  lemma RefreshMints(p: SessionPolicy, y: System, hash: TokenHash, now: Timestamp, newHash: TokenHash)
    requires Inv(p, y) && y.clock <= now && newHash !in y.ledger && Finds(y, hash)
    requires var e := y.store.sessions[y.store.index[hash]];
             EntryRefresh(e, hash, now, p, newHash).result.Issued? && !Coalesces(e, now, p)
    ensures Inv(p, AfterRefresh(p, y, hash, now, newHash))
  {
    var sid := y.store.index[hash];
    var e := y.store.sessions[sid];
    RefreshMintsTo(p, y, hash, now, newHash);
    RefreshMintsLog(p, y, hash, now, newHash);
    MintKeeps(p, y, AfterRefresh(p, y, hash, now, newHash), sid, e, now, newHash, Min(now + p.idleTtl, e.absoluteExp));
  }

  /** One command run. */
  lemma ReplayOne(log: seq<Command>, c: Command)
    ensures Replay(log + [c]) == Execute(Replay(log), c)
  {
    assert (log + [c])[..|log|] == log;
  }

  /** The session row once a refresh that minted nothing has slid its expiry. */
  function SlidRow(row: SessionRow, e: Entry, now: Timestamp, p: SessionPolicy): SessionRow {
    row.(currentGen := e.currentGen, idleExp := Slide(e, now, p).idleExp)
  }

  lemma RefreshSlides(p: SessionPolicy, y: System, hash: TokenHash, now: Timestamp, newHash: TokenHash)
    requires y.clock <= now && Finds(y, hash)
    requires var e := y.store.sessions[y.store.index[hash]];
             EntryRefresh(e, hash, now, p, newHash).result.Issued? && Coalesces(e, now, p)
    ensures var sid, y' := y.store.index[hash], AfterRefresh(p, y, hash, now, newHash);
            var slid := Slide(y.store.sessions[sid], now, p);
            && Replaces(y, y', sid, slid, now) && y'.ledger == y.ledger
            && y'.store == y.store.(sessions := y.store.sessions[sid := slid])
  {
    assert AppliedIndex(y.store.index, y.store.index[hash], NO_EFFECTS) == y.store.index;
  }

  lemma RefreshCoalescesLog(p: SessionPolicy, y: System, db: Db, hash: TokenHash, now: Timestamp, newHash: TokenHash)
    requires Finds(y, hash) && y.store.index[hash] in db.sessions && db == Replay(y.log)
    requires var e := y.store.sessions[y.store.index[hash]];
             EntryRefresh(e, hash, now, p, newHash).result.Issued? && Coalesces(e, now, p)
    ensures var sid := y.store.index[hash];
            Replay(AfterRefresh(p, y, hash, now, newHash).log)
            == RowSet(db, sid, SlidRow(db.sessions[sid], y.store.sessions[sid], now, p))
  {
    var sid := y.store.index[hash];
    var e := y.store.sessions[sid];
    assert EffectCommands(sid, NO_EFFECTS) == [];
    var progress := UpdateSessionProgress(sid, e.currentGen, Slide(e, now, p).idleExp);
    assert AfterRefresh(p, y, hash, now, newHash).log == y.log + [progress];
    ReplayOne(y.log, progress);
  }

  lemma RefreshCoalesces(p: SessionPolicy, y: System, hash: TokenHash, now: Timestamp, newHash: TokenHash)
    requires Inv(p, y) && y.clock <= now && Finds(y, hash)
    requires var e := y.store.sessions[y.store.index[hash]];
             EntryRefresh(e, hash, now, p, newHash).result.Issued? && Coalesces(e, now, p)
    ensures Inv(p, AfterRefresh(p, y, hash, now, newHash))
  {
    var db, sid := Replay(y.log), y.store.index[hash];
    var e := y.store.sessions[sid];
    HasRow(p, y, db, sid);
    assert SessionRowOk(db, sid);
    RefreshSlides(p, y, hash, now, newHash);
    RefreshCoalescesLog(p, y, db, hash, now, newHash);
    RowSetKeeps(p, y, db, AfterRefresh(p, y, hash, now, newHash), sid, Slide(e, now, p),
                SlidRow(db.sessions[sid], e, now, p), now);
  }

  lemma RefreshKeeps(p: SessionPolicy, y: System, hash: TokenHash, now: Timestamp, newHash: TokenHash)
    requires Inv(p, y) && y.clock <= now && newHash !in y.ledger
    ensures Inv(p, AfterRefresh(p, y, hash, now, newHash))
  {
    if !Finds(y, hash) {
      WaitKeeps(p, y, Replay(y.log), now);
    } else {
      var e := y.store.sessions[y.store.index[hash]];
      if EntryRefresh(e, hash, now, p, newHash).result.Refused? {
        WaitKeeps(p, y, Replay(y.log), now);
      } else if Coalesces(e, now, p) {
        RefreshCoalesces(p, y, hash, now, newHash);
      } else {
        RefreshMints(p, y, hash, now, newHash);
      }
    }
  }

  // ---------------------------------------------------------------------------------------
  // Tombstones and custody health
  // ---------------------------------------------------------------------------------------

  lemma TombstoneKeepsWith(p: SessionPolicy, y: System, db: Db, sid: Sid, now: Timestamp)
    requires InvWith(p, y, db) && y.clock <= now && sid in y.store.sessions && y.store.sessions[sid].status.Alive?
    ensures InvWith(p, AfterTombstone(y, sid, now), Execute(db, TombstoneSession(sid, now)))
  {
    HasRow(p, y, db, sid);
    assert SessionRowOk(db, sid);
    var row := db.sessions[sid].(status := Tombstoned, tombstonedAt := Some(now));
    RowSetKeeps(p, y, db, AfterTombstone(y, sid, now), sid, Buried(y.store.sessions[sid], now), row, now);
  }

  lemma TombstoneKeeps(p: SessionPolicy, y: System, sid: Sid, now: Timestamp)
    requires Inv(p, y) && y.clock <= now
    ensures Inv(p, AfterTombstone(y, sid, now))
  {
    if sid in y.store.sessions && y.store.sessions[sid].status.Alive? {
      TombstoneKeepsWith(p, y, Replay(y.log), sid, now);
      ReplayOne(y.log, TombstoneSession(sid, now));
    } else {
      WaitKeeps(p, y, Replay(y.log), now);
    }
  }

  lemma StatusStands(p: SessionPolicy, y: System, db: Db, y': System, custody: CustodyId, status: CustodyStatus,
                     x: Sid, e: Entry)
    requires Stands(p, y, db, x, e) && Later(y, y') && y'.ledger == y.ledger
    requires status.Dead? ==> custody in y'.revoked
    ensures Stands(p, y', db, x, WithStatus(e, custody, status))
  {
    UntouchedKeeps(p, y, y', x, e);
    assert AllHashes(WithStatus(e, custody, status)) == AllHashes(e);
  }

  lemma StatusIndex(y: System, custody: CustodyId, status: CustodyStatus)
    requires IndexExact(y.store)
    ensures IndexExact(AfterSetCustody(y, custody, status).store)
  {
    var s' := AfterSetCustody(y, custody, status).store;
    forall x | x in y.store.sessions ensures AllHashes(s'.sessions[x]) == AllHashes(y.store.sessions[x]) {
    }
  }

  lemma SetCustodyKeeps(p: SessionPolicy, y: System, custody: CustodyId, status: CustodyStatus)
    requires Inv(p, y)
    ensures Inv(p, AfterSetCustody(y, custody, status))
  {
    var db, y' := Replay(y.log), AfterSetCustody(y, custody, status);
    forall x | x in y.store.sessions ensures Stands(p, y', db, x, y'.store.sessions[x]) {
      HasRow(p, y, db, x);
      StatusStands(p, y, db, y', custody, status, x, y.store.sessions[x]);
    }
    StatusIndex(y, custody, status);
  }

  // ---------------------------------------------------------------------------------------
  // The sweep
  // ---------------------------------------------------------------------------------------

  lemma ReapAllStand(p: SessionPolicy, y: System, db: Db, y': System, sid: Sid, e: Entry, now: Timestamp)
    requires AllStand(p, y, db) && sid in y.store.sessions && e == y.store.sessions[sid]
    requires Replaces(y, y', sid, Reap(e, now, p).entry, now) && y'.ledger == y.ledger
    requires HashSet(Reap(e, now, p).capped) <= y'.capped
    ensures AllStand(p, y', db.(gens := db.gens - set h | h in Reap(e, now, p).purged))
  {
    var gone := set h | h in Reap(e, now, p).purged;
    HasRow(p, y, db, sid);
    PurgedAreOld(p, y.ledger, sid, e, now);
    forall x | x in y'.store.sessions ensures Stands(p, y', db.(gens := db.gens - gone), x, y'.store.sessions[x]) {
      HasRow(p, y, db, x);
      UntouchedKeeps(p, y, y', x, y.store.sessions[x]);
      if x == sid {
        ReapStands(p, y', db, sid, e, now);
      } else {
        PurgeStands(p, y', db, sid, gone, x, y.store.sessions[x]);
      }
    }
  }

  lemma ReapIndex(p: SessionPolicy, s: Store, sid: Sid, now: Timestamp)
    requires IndexExact(s) && sid in s.sessions && EntryOk(p, s.sessions[sid])
    ensures var r := Reap(s.sessions[sid], now, p);
            IndexExact(Store(s.sessions[sid := r.entry], AppliedIndex(s.index, sid, Effects(None, None, r.purged))))
  {
    var e := s.sessions[sid];
    var r := Reap(e, now, p);
    ReapPurges(p, e, now);
    assert Accounts(e, r.entry, Effects(None, None, r.purged));
    IndexMutated(s, sid, r.entry, Effects(None, None, r.purged));
  }

  lemma ReapKeeps(p: SessionPolicy, y: System, sid: Sid, now: Timestamp)
    requires Inv(p, y) && y.clock <= now
    ensures Inv(p, AfterReap(p, y, sid, now))
  {
    var db, y' := Replay(y.log), AfterReap(p, y, sid, now);
    if sid in y.store.sessions && !Collectible(y.store.sessions[sid], now, p) {
      var e := y.store.sessions[sid];
      var r := Reap(e, now, p);
      var gone := set h | h in r.purged;
      HasRow(p, y, db, sid);
      ReapAllStand(p, y, db, y', sid, e, now);
      ReapIndex(p, y.store, sid, now);
      PurgedAreOld(p, y.ledger, sid, e, now);
      PurgeKeepsTables(db, y.ledger, sid, gone);
      ReplacedForgets(p, db, db.(gens := db.gens - gone), y, y', sid, r.entry, now);
      ReplayAppends(y.log, EffectCommands(sid, Effects(None, None, r.purged)));
      EffectsOnTables(db, sid, Effects(None, None, r.purged));
    } else {
      WaitKeeps(p, y, db, now);
    }
  }

  /** Only a session that is over is collected. */
  lemma CollectibleIsOver(p: SessionPolicy, y: System, e: Entry, now: Timestamp)
    requires EntryOk(p, e) && Collectible(e, now, p) && (e.custodyStatus.Dead? ==> e.custody in y.revoked)
    ensures e.status.Alive? ==> now >= e.idleExp || EndedBy(p, y, e.custody)
  {
  }

  lemma CollectAllStand(p: SessionPolicy, y: System, db: Db, y': System)
    requires AllStand(p, y, db) && Later(y, y') && y'.ledger == y.ledger
    requires forall x :: x in y'.store.sessions ==> x in y.store.sessions && y'.store.sessions[x] == y.store.sessions[x]
    ensures AllStand(p, y', db)
  {
    forall x | x in y'.store.sessions ensures Stands(p, y', db, x, y'.store.sessions[x]) {
      HasRow(p, y, db, x);
      UntouchedKeeps(p, y, y', x, y.store.sessions[x]);
    }
  }

  lemma CollectForgets(p: SessionPolicy, y: System, db: Db, sid: Sid, now: Timestamp)
    requires ForgottenAreOver(p, db, y) && y.clock <= now && sid in y.store.sessions
    requires Stands(p, y, db, sid, y.store.sessions[sid]) && Collectible(y.store.sessions[sid], now, p)
    ensures ForgottenAreOver(p, db, AfterCollect(p, y, sid, now))
  {
    CollectibleIsOver(p, y, y.store.sessions[sid], now);
  }

  lemma CollectKeeps(p: SessionPolicy, y: System, sid: Sid, now: Timestamp)
    requires Inv(p, y) && y.clock <= now
    ensures Inv(p, AfterCollect(p, y, sid, now))
  {
    var db, y' := Replay(y.log), AfterCollect(p, y, sid, now);
    if sid in y.store.sessions && Collectible(y.store.sessions[sid], now, p) {
      HasRow(p, y, db, sid);
      CollectAllStand(p, y, db, y');
      CollectForgets(p, y, db, sid, now);
      CollectIndex(y.store, sid);
    } else {
      WaitKeeps(p, y, db, now);
    }
  }

  lemma CollectIndex(s: Store, sid: Sid)
    requires IndexExact(s) && sid in s.sessions
    ensures IndexExact(Store(s.sessions - {sid}, s.index - AllHashes(s.sessions[sid])))
  {
  }
}
