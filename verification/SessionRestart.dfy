/** A boot from the tables is a refinement: the rows of a live session are exactly its generations
    and its retired memory, every authenticating or refreshable verdict survives, and nothing that
    died by expiry or logout comes back. */
module SessionRestart {
  import opened Prelude
  import opened SessionModel
  import opened SessionStore
  import opened SessionEntryFacts
  import opened SessionInvariant
  import opened SessionRun
  import opened SessionSteps

  // ---------------------------------------------------------------------------------------
  // Rows in generation order
  // ---------------------------------------------------------------------------------------

  predicate DistinctNumbers(gs: set<Generation>) {
    forall g, h :: g in gs && h in gs && g != h ==> g.genNo != h.genNo
  }

  predicate Ascending(gens: seq<Generation>) {
    forall i, j :: 0 <= i < j < |gens| ==> gens[i].genNo < gens[j].genNo
  }

  lemma {:induction false} ListedByGenNo(gs: set<Generation>)
    requires DistinctNumbers(gs)
    ensures var l := ByGenNo(gs);
            (forall g :: g in l <==> g in gs) && Ascending(l) && (gs != {} ==> l != [])
    decreases gs
  {
    if gs != {} {
      var o := Oldest(gs);
      ListedByGenNo(gs - {o});
      var rest := ByGenNo(gs - {o});
      forall j | 0 <= j < |rest| ensures o.genNo < rest[j].genNo {
        assert rest[j] in rest;
      }
    }
  }

  /** The generations a boot gives a session. */
  lemma RowsAreDistinct(db: Db, ledger: map<TokenHash, GenRow>, sid: Sid)
    requires TablesOk(db, ledger)
    ensures DistinctNumbers(RowsOf(db, sid))
    ensures forall g :: g in RowsOf(db, sid) <==> g.hash in db.gens && db.gens[g.hash] == GenRow(sid, g)
  {
    forall h | h in db.gens ensures db.gens[h].gen.hash == h {
      assert LedgerRowOk(db, ledger[h], h);
    }
  }

  lemma BootGens(db: Db, ledger: map<TokenHash, GenRow>, sid: Sid)
    requires TablesOk(db, ledger)
    ensures var l := ByGenNo(RowsOf(db, sid));
            && Ascending(l) && DistinctGens(l)
            && (forall g :: g in l <==> g.hash in db.gens && db.gens[g.hash] == GenRow(sid, g))
            && (RowsOf(db, sid) != {} ==> l != [])
  {
    var l := ByGenNo(RowsOf(db, sid));
    RowsAreDistinct(db, ledger, sid);
    ListedByGenNo(RowsOf(db, sid));
    forall i, j | 0 <= i < j < |l| ensures l[i].hash != l[j].hash {
      assert l[i] in l && l[j] in l;
    }
  }

  /** A session's newest generation has a row. */
  lemma TopHasRow(db: Db, ledger: map<TokenHash, GenRow>, sid: Sid) returns (g: Generation)
    requires TablesOk(db, ledger) && sid in db.sessions
    ensures g in RowsOf(db, sid) && g.genNo == db.sessions[sid].currentGen
  {
    assert SessionRowOk(db, sid);
    var h :| h in db.gens && db.gens[h].sid == sid && db.gens[h].gen.genNo == db.sessions[sid].currentGen;
    g := db.gens[h].gen;
  }

  /** Every row of a session is numbered up to its current generation, the only one not superseded. */
  lemma RowIsDated(db: Db, ledger: map<TokenHash, GenRow>, sid: Sid, g: Generation)
    requires TablesOk(db, ledger) && sid in db.sessions && g in RowsOf(db, sid)
    ensures g.genNo <= db.sessions[sid].currentGen
    ensures g.supersededAt.None? <==> g.genNo == db.sessions[sid].currentGen
  {
    var h :| h in db.gens && db.gens[h].sid == sid && db.gens[h].gen == g;
    assert LedgerRowOk(db, ledger[h], h);
  }

  lemma AscendingLadder(l: seq<Generation>, current: nat, top: Generation)
    requires Ascending(l) && top in l && top.genNo == current
    requires forall g :: g in l ==> g.genNo <= current && (g.supersededAt.None? <==> g.genNo == current)
    ensures Ladder(l, current)
  {
    var k :| 0 <= k < |l| && l[k] == top;
    assert l[|l| - 1] in l;
    assert k == |l| - 1;
    forall i | 0 <= i < |l| ensures l[i].supersededAt.None? <==> i == |l| - 1 {
      assert l[i] in l;
    }
  }

  /** The newest row of a session is its current generation. */
  lemma BootLadder(db: Db, ledger: map<TokenHash, GenRow>, sid: Sid)
    requires TablesOk(db, ledger) && sid in db.sessions
    ensures RowsOf(db, sid) != {}
    ensures Ladder(ByGenNo(RowsOf(db, sid)), db.sessions[sid].currentGen)
  {
    var l, current := ByGenNo(RowsOf(db, sid)), db.sessions[sid].currentGen;
    var top := TopHasRow(db, ledger, sid);
    RowsAreDistinct(db, ledger, sid);
    ListedByGenNo(RowsOf(db, sid));
    forall g | g in l ensures g.genNo <= current && (g.supersededAt.None? <==> g.genNo == current) {
      RowIsDated(db, ledger, sid, g);
    }
    AscendingLadder(l, current, top);
  }

  /** The hashes a boot indexes for a session are exactly those with a row. */
  lemma BootHashes(db: Db, ledger: map<TokenHash, GenRow>, sid: Sid)
    requires TablesOk(db, ledger)
    ensures forall h :: h in HashSet(ByGenNo(RowsOf(db, sid))) <==> h in db.gens && db.gens[h].sid == sid
  {
    var l := ByGenNo(RowsOf(db, sid));
    BootGens(db, ledger, sid);
    forall h | h in db.gens && db.gens[h].sid == sid ensures h in HashSet(l) {
      assert LedgerRowOk(db, ledger[h], h);
      assert db.gens[h].gen in l;
    }
    forall h | h in HashSet(l) ensures h in db.gens && db.gens[h].sid == sid {
      var g :| g in l && g.hash == h;
    }
  }

  // ---------------------------------------------------------------------------------------
  // A boot keeps the invariant
  // ---------------------------------------------------------------------------------------

  lemma BootStands(p: SessionPolicy, y: System, db: Db, sid: Sid)
    requires TablesOk(db, y.ledger) && db.sessions.Keys == y.sids && Restorable(db, sid)
    ensures Stands(p, y, db, sid, ReinstatedEntry(sid, db.sessions[sid], ByGenNo(RowsOf(db, sid))))
  {
    var l := ByGenNo(RowsOf(db, sid));
    BootLadder(db, y.ledger, sid);
    BootGens(db, y.ledger, sid);
    BootHashes(db, y.ledger, sid);
    assert SessionRowOk(db, sid);
    forall g | g in l ensures GenOnLedger(y.ledger, sid, g) {
      assert g.hash in db.gens;
    }
    assert AllHashes(ReinstatedEntry(sid, db.sessions[sid], l)) == HashSet(l);
  }

  lemma BootIndex(db: Db, ledger: map<TokenHash, GenRow>)
    requires TablesOk(db, ledger)
    ensures IndexExact(Boot(db))
  {
    var s := Boot(db);
    forall sid | sid in s.sessions
      ensures forall h :: h in AllHashes(s.sessions[sid]) <==> h in db.gens && db.gens[h].sid == sid
    {
      BootHashes(db, ledger, sid);
      assert AllHashes(s.sessions[sid]) == HashSet(s.sessions[sid].gens);
    }
    forall h | h in s.index ensures s.index[h] in s.sessions {
      assert LedgerRowOk(db, ledger[h], h);
    }
  }

  lemma BootKeeps(p: SessionPolicy, y: System, db: Db, y': System)
    requires TablesOk(db, y.ledger) && db.sessions.Keys == y.sids && y' == y.(store := Boot(db))
    ensures InvWith(p, y', db)
  {
    forall sid | sid in y'.store.sessions ensures Stands(p, y', db, sid, y'.store.sessions[sid]) {
      BootStands(p, y', db, sid);
    }
    BootIndex(db, y.ledger);
    forall sid | sid in db.sessions && db.sessions[sid].status.Alive? ensures sid in y'.store.sessions {
      BootLadder(db, y.ledger, sid);
    }
  }

  // ---------------------------------------------------------------------------------------
  // Steps and runs
  // ---------------------------------------------------------------------------------------

  lemma StepKeeps(p: SessionPolicy, y: System, op: Op)
    requires Inv(p, y) && Valid(y, op)
    ensures Inv(p, Step(p, y, op))
  {
    match op
    case Create(sid, custody, sub, now, newHash) => CreateKeeps(p, y, sid, custody, sub, now, newHash);
    case Refresh(hash, now, newHash) => RefreshKeeps(p, y, hash, now, newHash);
    case Tombstone(sid, now) => TombstoneKeeps(p, y, sid, now);
    case SetCustody(custody, status) => SetCustodyKeeps(p, y, custody, status);
    case ReapOne(sid, now) => ReapKeeps(p, y, sid, now);
    case CollectOne(sid, now) => CollectKeeps(p, y, sid, now);
    case Restart => BootKeeps(p, y, Replay(y.log), Step(p, y, op));
  }

  lemma InitialInv(p: SessionPolicy, start: Timestamp)
    ensures Inv(p, Initial(start))
  {
  }

  /** Whatever happens to the map, restarts included, its index, its entries, its history and the
      tables its log builds agree. */
  lemma {:induction false} RunKeeps(p: SessionPolicy, y: System, ops: seq<Op>)
    requires Inv(p, y) && ValidRun(p, y, ops)
    ensures Inv(p, Run(p, y, ops))
    decreases |ops|
  {
    if ops != [] {
      StepKeeps(p, y, ops[0]);
      RunKeeps(p, Step(p, y, ops[0]), ops[1..]);
    }
  }

  /** What a map can come to from empty. */
  ghost predicate Reachable(p: SessionPolicy, y: System) {
    exists start, ops :: ValidRun(p, Initial(start), ops) && y == Run(p, Initial(start), ops)
  }

  lemma ReachableInv(p: SessionPolicy, y: System)
    requires Reachable(p, y)
    ensures Inv(p, y)
  {
    var start, ops :| ValidRun(p, Initial(start), ops) && y == Run(p, Initial(start), ops);
    InitialInv(p, start);
    RunKeeps(p, Initial(start), ops);
  }

  // ---------------------------------------------------------------------------------------
  // What the log says of a live session
  // ---------------------------------------------------------------------------------------

  /** The index is the union of the entries' hashes, no more and no less. */
  lemma IndexIsExact(p: SessionPolicy, y: System, hash: TokenHash, sid: Sid)
    requires Reachable(p, y)
    ensures hash in y.store.index && y.store.index[hash] == sid
       <==> sid in y.store.sessions && hash in AllHashes(y.store.sessions[sid])
  {
    ReachableInv(p, y);
  }

  /** Replaying the emitted commands gives each session in memory its row and exactly the rows of
      its generations and its retired memory, at the same dates. */
  lemma RowsAreExact(p: SessionPolicy, y: System, sid: Sid)
    requires Reachable(p, y) && sid in y.store.sessions
    ensures var db, e := Replay(y.log), y.store.sessions[sid];
            && sid in db.sessions && RowMatches(db.sessions[sid], e)
            && (forall h :: h in db.gens && db.gens[h].sid == sid <==> h in db.gens && h in AllHashes(e))
            && (forall h :: h in AllHashes(e) ==> h in db.gens)
            && (forall g :: g in e.gens ==> db.gens[g.hash] == GenRow(sid, g))
            && (forall m :: m in e.retired ==>
                  && m.hash in y.ledger && db.gens[m.hash] == y.ledger[m.hash]
                  && db.gens[m.hash].gen.genNo == m.genNo && db.gens[m.hash].gen.supersededAt.Some?)
  {
    var db, e := Replay(y.log), y.store.sessions[sid];
    ReachableInv(p, y);
    HasRow(p, y, db, sid);
    OnLedgerHashes(y.ledger, sid, e);
    forall g | g in e.gens ensures g.hash in db.gens && db.gens[g.hash] == GenRow(sid, g) {
      assert GenOnLedger(y.ledger, sid, g) && g.hash in AllHashes(e);
    }
    forall m | m in e.retired
      ensures m.hash in db.gens && m.hash in y.ledger && db.gens[m.hash] == y.ledger[m.hash]
      ensures db.gens[m.hash].gen.genNo == m.genNo && db.gens[m.hash].gen.supersededAt.Some?
    {
      assert MarkOnLedger(y.ledger, sid, m) && m.hash in AllHashes(e);
    }
  }

  // ---------------------------------------------------------------------------------------
  // Verdicts across a boot
  // ---------------------------------------------------------------------------------------

  lemma FindsGen(gens: seq<Generation>, g: Generation)
    requires DistinctGens(gens) && g in gens
    ensures FindGen(gens, g.hash) == Some(g)
  {
    var found := FindGen(gens, g.hash).value;
    var i :| 0 <= i < |gens| && gens[i] == g;
    var j :| 0 <= j < |gens| && gens[j] == found;
    if i < j {
      assert gens[i].hash != gens[j].hash;
    } else if j < i {
      assert gens[j].hash != gens[i].hash;
    }
  }

  lemma FindsNoGen(gens: seq<Generation>, hash: TokenHash)
    requires hash !in HashSet(gens)
    ensures FindGen(gens, hash).None?
  {
  }

  /** The verdict two rows stand for. */
  function RowVerdict(p: SessionPolicy, row: SessionRow, r: GenRow, now: Timestamp): Resolution {
    if now >= row.absoluteExp then HardExpired(r.sid, Absolute)
    else if now >= row.idleExp then HardExpired(r.sid, Idle)
    else if now < r.gen.ValidUntil(p.grace) then Active(r.sid, r.gen.genNo, r.gen.genNo == row.currentGen)
    else if r.gen.genNo == row.currentGen then StaleRefreshable(r.sid, r.gen.genNo)
    else Retired(r.sid, r.gen.genNo)
  }

  /** Nothing but its dates keeps the entry from being used. */
  predicate InService(p: SessionPolicy, e: Entry) {
    e.status.Alive? && !(e.custodyStatus.Dead? && p.onUpstreamRevoked.Kill?)
  }

  /** An entry in service answers about one of its generations what the rows say. */
  lemma GenAnswers(p: SessionPolicy, e: Entry, row: SessionRow, r: GenRow, now: Timestamp)
    requires InService(p, e) && DistinctGens(e.gens) && r.gen in e.gens && r.sid == e.sid
    requires row.currentGen == e.currentGen && row.idleExp == e.idleExp && row.absoluteExp == e.absoluteExp
    ensures Classify(e, r.gen.hash, now, p) == RowVerdict(p, row, r, now)
  {
    FindsGen(e.gens, r.gen);
  }

  /** Of one of its marks, that it is retired, once its dates have not run out. */
  lemma MarkAnswers(p: SessionPolicy, e: Entry, row: SessionRow, r: GenRow, now: Timestamp)
    requires InService(p, e) && r.sid == e.sid && r.gen.hash !in HashSet(e.gens)
    requires row.idleExp == e.idleExp && row.absoluteExp == e.absoluteExp && row.idleExp <= row.absoluteExp
    requires FindMark(e.retired, r.gen.hash) == Some(Mark(r.gen.hash, r.gen.genNo))
    ensures Classify(e, r.gen.hash, now, p)
         == if now < e.idleExp then Retired(r.sid, r.gen.genNo) else RowVerdict(p, row, r, now)
  {
    FindsNoGen(e.gens, r.gen.hash);
  }

  /** A boot brings a hash back exactly if it has a row and its session is alive. */
  lemma BootHolds(ledger: map<TokenHash, GenRow>, db: Db, hash: TokenHash)
    requires TablesOk(db, ledger)
    ensures hash in db.gens ==> db.gens[hash].sid in db.sessions && db.gens[hash].gen.hash == hash
    ensures hash in Boot(db).index <==> hash in db.gens && db.sessions[db.gens[hash].sid].status.Alive?
    ensures hash in Boot(db).index ==>
              var sid := db.gens[hash].sid;
              Boot(db).index[hash] == sid && sid in Boot(db).sessions
              && Boot(db).sessions[sid] == ReinstatedEntry(sid, db.sessions[sid], ByGenNo(RowsOf(db, sid)))
  {
    if hash in db.gens {
      assert LedgerRowOk(db, ledger[hash], hash);
      BootLadder(db, ledger, db.gens[hash].sid);
    }
  }

  /** What a boot answers about a hash, read off the tables. */
  lemma BootAnswers(p: SessionPolicy, ledger: map<TokenHash, GenRow>, db: Db, hash: TokenHash, now: Timestamp)
    requires TablesOk(db, ledger)
    ensures hash in db.gens ==> db.gens[hash].sid in db.sessions && db.gens[hash].gen.hash == hash
    ensures Resolve(p, Boot(db), hash, now)
         == if hash in db.gens && db.sessions[db.gens[hash].sid].status.Alive?
            then RowVerdict(p, db.sessions[db.gens[hash].sid], db.gens[hash], now)
            else Unknown
  {
    BootHolds(ledger, db, hash);
    if hash in Boot(db).index {
      var sid := db.gens[hash].sid;
      BootGens(db, ledger, sid);
      GenAnswers(p, Boot(db).sessions[sid], db.sessions[sid], db.gens[hash], now);
    }
  }

  /** What memory holds of an indexed hash, and what the tables do. */
  lemma Held(p: SessionPolicy, y: System, db: Db, hash: TokenHash)
    requires InvWith(p, y, db) && hash in y.store.index
    ensures var sid := y.store.index[hash];
            && sid in y.store.sessions && Stands(p, y, db, sid, y.store.sessions[sid])
            && hash in AllHashes(y.store.sessions[sid])
            && hash in y.ledger && y.ledger[hash].sid == sid && y.ledger[hash].gen.hash == hash
            && hash in db.gens && db.gens[hash] == y.ledger[hash]
  {
    var sid := y.store.index[hash];
    HasRow(p, y, db, sid);
    OnLedgerHashes(y.ledger, sid, y.store.sessions[sid]);
    assert LedgerRowOk(db, y.ledger[hash], hash);
  }

  /** A hash no longer among an entry's generations is a spent mark. */
  lemma HeldMark(p: SessionPolicy, y: System, db: Db, sid: Sid, e: Entry, hash: TokenHash)
    requires Stands(p, y, db, sid, e) && LedgerOk(db, y.ledger) && hash in AllHashes(e) && hash !in HashSet(e.gens)
    ensures hash in y.ledger && FindMark(e.retired, hash) == Some(Mark(hash, y.ledger[hash].gen.genNo))
    ensures Spent(p, y, hash) && y.ledger[hash].gen.genNo != e.currentGen
  {
    var k :| k in e.retired && k.hash == hash;
    var m := FindMark(e.retired, hash).value;
    assert MarkOnLedger(y.ledger, sid, m);
    assert LedgerRowOk(db, y.ledger[hash], hash);
  }

  /** What memory answers about a hash of a session in service, against what the rows say. */
  lemma MemoryAnswers(p: SessionPolicy, y: System, db: Db, hash: TokenHash, now: Timestamp)
    requires InvWith(p, y, db) && hash in y.store.index
    requires y.store.index[hash] in y.store.sessions && InService(p, y.store.sessions[y.store.index[hash]])
    ensures var sid := y.store.index[hash];
            sid in db.sessions && db.sessions[sid].status.Alive? && hash in db.gens && db.gens[hash].sid == sid
    ensures var sid, r, v := y.store.index[hash], db.gens[hash], Resolve(p, y.store, hash, now);
            || v == RowVerdict(p, db.sessions[sid], r, now)
            || (v == Retired(sid, r.gen.genNo) && Spent(p, y, hash) && now < db.sessions[sid].idleExp
                && r.gen.genNo != db.sessions[sid].currentGen)
  {
    var sid := y.store.index[hash];
    var e := y.store.sessions[sid];
    Held(p, y, db, hash);
    if hash in HashSet(e.gens) {
      var g :| g in e.gens && g.hash == hash;
      assert GenOnLedger(y.ledger, sid, g);
      GenAnswers(p, e, db.sessions[sid], db.gens[hash], now);
    } else {
      HeldMark(p, y, db, sid, e, hash);
      MarkAnswers(p, e, db.sessions[sid], db.gens[hash], now);
    }
  }

  /** And of a session out of service. */
  lemma OutOfService(p: SessionPolicy, y: System, db: Db, hash: TokenHash, now: Timestamp)
    requires InvWith(p, y, db) && hash in y.store.index
    requires y.store.index[hash] in y.store.sessions && !InService(p, y.store.sessions[y.store.index[hash]])
    ensures var sid, v := y.store.index[hash], Resolve(p, y.store, hash, now);
            && sid in db.sessions && hash in db.gens && db.gens[hash].sid == sid
            && (if db.sessions[sid].status.Tombstoned? then v == HardExpired(sid, LoggedOut)
                else v.HardExpired? && EndedBy(p, y, db.sessions[sid].custody))
  {
    Held(p, y, db, hash);
  }

  /** A row whose hash memory does not index: its session is gone from memory. */
  lemma NotHeld(p: SessionPolicy, y: System, db: Db, hash: TokenHash)
    requires InvWith(p, y, db) && hash in db.gens && hash !in y.store.index
    ensures db.gens[hash].sid in db.sessions && db.gens[hash].sid !in y.store.sessions
    ensures var row := db.sessions[db.gens[hash].sid];
            row.status.Alive? ==> y.clock >= row.idleExp || EndedBy(p, y, row.custody)
  {
    var sid := db.gens[hash].sid;
    assert LedgerRowOk(db, y.ledger[hash], hash);
    if sid in y.store.sessions {
      HasRow(p, y, db, sid);
    }
  }

  /** The map a boot gives. */
  ghost function Rebooted(y: System): Store {
    Boot(Replay(y.log))
  }

  /** The death of its custody did not end the session behind a hash: it was never reported, or is
      only surfaced. */
  ghost predicate Unrevoked(p: SessionPolicy, y: System, hash: TokenHash) {
    var db := Replay(y.log);
    hash in db.gens && db.gens[hash].sid in db.sessions ==> !EndedBy(p, y, db.sessions[db.gens[hash].sid].custody)
  }

  /** A deploy logs nobody out: whatever authenticates or can be refreshed does so identically
      after a restart, at every instant. */
  lemma RestartPreserves(p: SessionPolicy, y: System, hash: TokenHash, now: Timestamp)
    requires Reachable(p, y)
    requires Resolve(p, y.store, hash, now).Active? || Resolve(p, y.store, hash, now).StaleRefreshable?
    ensures Resolve(p, Rebooted(y), hash, now) == Resolve(p, y.store, hash, now)
  {
    ReachableInv(p, y);
    BootAnswers(p, y.ledger, Replay(y.log), hash, now);
    MemoryAnswers(p, y, Replay(y.log), hash, now);
  }

  /** Its row is still there, of a session not logged out and not past its idle expiry, inside the
      window its generation has on record. */
  ghost predicate RowsServe(p: SessionPolicy, db: Db, ledger: map<TokenHash, GenRow>, hash: TokenHash, now: Timestamp) {
    && hash in db.gens && hash in ledger && now < ledger[hash].gen.ValidUntil(p.grace)
    && db.gens[hash].sid in db.sessions && db.sessions[db.gens[hash].sid].status.Alive?
    && now < db.sessions[db.gens[hash].sid].idleExp
  }

  lemma BootServes(p: SessionPolicy, ledger: map<TokenHash, GenRow>, db: Db, hash: TokenHash, now: Timestamp)
    requires TablesOk(db, ledger)
    ensures Authenticates(p, Boot(db), hash, now) <==> RowsServe(p, db, ledger, hash, now)
  {
    BootAnswers(p, ledger, db, hash, now);
    if hash in db.gens {
      assert SessionRowOk(db, db.gens[hash].sid);
    }
  }

  /** What authenticates after a restart, exactly, with no exception. */
  lemma RebootedExactly(p: SessionPolicy, y: System, hash: TokenHash, now: Timestamp)
    requires Inv(p, y)
    ensures Authenticates(p, Rebooted(y), hash, now) <==> RowsServe(p, Replay(y.log), y.ledger, hash, now)
  {
    BootServes(p, y.ledger, Replay(y.log), hash, now);
  }

  /** So nothing that died by expiry or logout comes back, and what authenticates did so before the
      restart, unless the cap had pushed it out or its custody's death had ended the session. */
  lemma RestartRevivesNothing(p: SessionPolicy, y: System, hash: TokenHash, now: Timestamp)
    requires Reachable(p, y) && Authenticates(p, Rebooted(y), hash, now)
    ensures hash in y.ledger && now < y.ledger[hash].gen.ValidUntil(p.grace)
    ensures y.ledger[hash].sid in Replay(y.log).sessions
    ensures var row := Replay(y.log).sessions[y.ledger[hash].sid]; row.status.Alive? && now < row.idleExp
    ensures y.clock <= now ==>
              || Resolve(p, y.store, hash, now) == Resolve(p, Rebooted(y), hash, now)
              || hash in y.capped || !Unrevoked(p, y, hash)
  {
    ReachableInv(p, y);
    RebootedExactly(p, y, hash, now);
    if y.clock <= now && hash !in y.capped && Unrevoked(p, y, hash) {
      RestartVerdict(p, y, hash, now);
    }
  }

  /** Which retired tokens a restart brings back: exactly those whose window has not passed, of a
      session in use. Before it, none of them authenticates. */
  lemma RetiredComesBackExactly(p: SessionPolicy, y: System, sid: Sid, m: Mark, now: Timestamp)
    requires Inv(p, y) && sid in y.store.sessions && m in y.store.sessions[sid].retired
    ensures !Authenticates(p, y.store, m.hash, now) && m.hash in y.ledger
    ensures var e := y.store.sessions[sid];
            Authenticates(p, Rebooted(y), m.hash, now)
            == (e.status.Alive? && now < e.idleExp && now < y.ledger[m.hash].gen.ValidUntil(p.grace))
  {
    var db, e := Replay(y.log), y.store.sessions[sid];
    HasRow(p, y, db, sid);
    OnLedgerHashes(y.ledger, sid, e);
    assert m.hash in AllHashes(e);
    RebootedExactly(p, y, m.hash, now);
    NotAmong(e.gens, e.retired, m);
    FindsNoGen(e.gens, m.hash);
  }

  lemma NotAmong(gens: seq<Generation>, marks: seq<Mark>, m: Mark)
    requires Apart(gens, marks) && m in marks
    ensures m.hash !in HashSet(gens)
  {
  }

  /** In particular what the cap has just evicted: refused at once, and served again by a restart, as
      long as its hash is still remembered. */
  lemma EvictionComesBack(p: SessionPolicy, y: System, sid: Sid, g: Generation, now: Timestamp)
    requires Inv(p, y) && y.clock <= now && sid in y.store.sessions
             && SessionExpiry(y.store.sessions[sid], now, p).None?
    requires g in Reap(y.store.sessions[sid], now, p).capped
    requires Mark(g.hash, g.genNo) in Reap(y.store.sessions[sid], now, p).entry.retired
    ensures !Authenticates(p, AfterReap(p, y, sid, now).store, g.hash, now)
    ensures Authenticates(p, Rebooted(AfterReap(p, y, sid, now)), g.hash, now)
  {
    HasRow(p, y, Replay(y.log), sid);
    CappedIsOnLedger(p, y.ledger, sid, y.store.sessions[sid], now, g);
    ReapKeeps(p, y, sid, now);
    ReapsInPlace(p, y, sid, now);
    RetiredComesBackExactly(p, AfterReap(p, y, sid, now), sid, Mark(g.hash, g.genNo), now);
  }

  lemma CappedIsOnLedger(p: SessionPolicy, ledger: map<TokenHash, GenRow>, sid: Sid, e: Entry, now: Timestamp,
                         g: Generation)
    requires EntryOk(p, e) && OnLedger(ledger, sid, e) && g in Reap(e, now, p).capped
    ensures GenOnLedger(ledger, sid, g) && now < g.ValidUntil(p.grace)
  {
    CappedWasUnexpired(p, e, now, g);
  }

  lemma ReapsInPlace(p: SessionPolicy, y: System, sid: Sid, now: Timestamp)
    requires sid in y.store.sessions && SessionExpiry(y.store.sessions[sid], now, p).None?
    ensures var e, y' := y.store.sessions[sid], AfterReap(p, y, sid, now);
            && y'.ledger == y.ledger && sid in y'.store.sessions
            && y'.store.sessions[sid] == Reap(e, now, p).entry
            && e.status.Alive? && now < e.idleExp
            && y'.store.sessions[sid].status == e.status && y'.store.sessions[sid].idleExp == e.idleExp
  {
  }

  /** The verdict a restart turns another into. */
  predicate Carries(before: Resolution, after: Resolution) {
    if before.Unknown? then after.Unknown? || after.HardExpired?
    else if before.HardExpired? && before.reason.LoggedOut? then after.Unknown?
    else after == before
  }

  /** The whole verdict, where neither the cap nor a revocation intervened: it changes only in that
      a logged-out session is forgotten and a forgotten one may be remembered as expired. */
  lemma RestartVerdict(p: SessionPolicy, y: System, hash: TokenHash, now: Timestamp)
    requires Reachable(p, y) && y.clock <= now && hash !in y.capped && Unrevoked(p, y, hash)
    ensures Carries(Resolve(p, y.store, hash, now), Resolve(p, Rebooted(y), hash, now))
  {
    ReachableInv(p, y);
    VerdictCarries(p, y, Replay(y.log), hash, now);
  }

  lemma HeldCarries(p: SessionPolicy, y: System, db: Db, hash: TokenHash, now: Timestamp)
    requires InvWith(p, y, db) && y.clock <= now && hash !in y.capped && hash in y.store.index
    requires hash in db.gens && db.gens[hash].sid in db.sessions ==>
               !EndedBy(p, y, db.sessions[db.gens[hash].sid].custody)
    ensures hash in db.gens && db.gens[hash].sid in db.sessions
    ensures var row := db.sessions[db.gens[hash].sid];
            Carries(Resolve(p, y.store, hash, now),
                    if row.status.Alive? then RowVerdict(p, row, db.gens[hash], now) else Unknown)
  {
    Held(p, y, db, hash);
    if InService(p, y.store.sessions[y.store.index[hash]]) {
      MemoryAnswers(p, y, db, hash, now);
    } else {
      OutOfService(p, y, db, hash, now);
    }
  }

  lemma VerdictCarries(p: SessionPolicy, y: System, db: Db, hash: TokenHash, now: Timestamp)
    requires InvWith(p, y, db) && y.clock <= now && hash !in y.capped
    requires hash in db.gens && db.gens[hash].sid in db.sessions ==>
               !EndedBy(p, y, db.sessions[db.gens[hash].sid].custody)
    ensures Carries(Resolve(p, y.store, hash, now), Resolve(p, Boot(db), hash, now))
  {
    BootAnswers(p, y.ledger, db, hash, now);
    if hash in y.store.index {
      HeldCarries(p, y, db, hash, now);
    } else if hash in db.gens {
      NotHeld(p, y, db, hash);
    }
  }
}
