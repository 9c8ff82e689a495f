/** What a session is, from what was done to it: a reference of the whole map that knows only when a
    session was created, when its tokens were minted, when it was last used, when it was logged out and
    what was last reported of its custody. Every date the map hands out follows from these. */
module SessionHistory {
  import opened Prelude
  import opened Custody
  import opened SessionModel
  import opened SessionStore
  import opened SessionEntryFacts
  import opened SessionInvariant
  import opened SessionRun
  import opened SessionSteps
  import opened SessionRestart

  // ---------------------------------------------------------------------------------------
  // What is told
  // ---------------------------------------------------------------------------------------

  datatype Minting = Minting(hash: TokenHash, at: Timestamp)

  /** `inHand` says whether the newest token's plaintext is: it was minted since the last boot, and the
      session is not logged out. */
  datatype Told = Told(
    custody: CustodyId,
    sub: string,
    bornAt: Timestamp,
    mints: seq<Minting>,
    inHand: bool,
    lastUse: Timestamp,
    out: Option<Timestamp>,
    health: CustodyStatus)
  {
    function AbsoluteEnd(p: SessionPolicy): Timestamp {
      bornAt + p.absoluteTtl
    }

    /** When it idles out, if it is not used again. */
    function IdleEnd(p: SessionPolicy): Timestamp {
      if lastUse + p.idleTtl <= AbsoluteEnd(p) then lastUse + p.idleTtl else AbsoluteEnd(p)
    }
  }

  /** What is told of a session that mints. */
  function WithMint(t: Told, now: Timestamp, newHash: TokenHash): Told {
    t.(lastUse := now, inHand := true, mints := t.mints + [Minting(newHash, now)])
  }

  /** A refresh that was served: it re-issues the newest token if that is in hand and younger than the
      coalescing window, and mints otherwise. */
  function Refreshes(p: SessionPolicy, t: Told, now: Timestamp, newHash: TokenHash): Told
    requires t.mints != []
  {
    if t.inHand && now - t.mints[|t.mints| - 1].at < p.coalesce then t.(lastUse := now)
    else WithMint(t, now, newHash)
  }

  function Tell(p: SessionPolicy, s: Store, told: map<Sid, Told>, op: Op): map<Sid, Told> {
    match op
    case Create(sid, custody, sub, now, newHash) =>
      told[sid := Told(custody, sub, now, [Minting(newHash, now)], true, now, None, Ok)]
    case Refresh(hash, now, newHash) =>
      var v := Resolve(p, s, hash, now);
      if (v.Active? || v.StaleRefreshable?) && v.sid in told && told[v.sid].mints != []
      then told[v.sid := Refreshes(p, told[v.sid], now, newHash)] else told
    case Tombstone(sid, now) =>
      if sid in s.sessions && sid in told && told[sid].out.None?
      then told[sid := told[sid].(out := Some(now), inHand := false)] else told
    case SetCustody(custody, status) =>
      map sid | sid in told :: if told[sid].custody == custody then told[sid].(health := status) else told[sid]
    case Restart => map sid | sid in told :: told[sid].(health := Ok, inHand := false)
    case _ => told
  }

  ghost function TellAll(p: SessionPolicy, y: System, told: map<Sid, Told>, ops: seq<Op>): map<Sid, Told>
    decreases |ops|
  {
    if ops == [] then told else TellAll(p, Step(p, y, ops[0]), Tell(p, y.store, told, ops[0]), ops[1..])
  }

  // ---------------------------------------------------------------------------------------
  // The tables as told
  // ---------------------------------------------------------------------------------------

  predicate RowTold(p: SessionPolicy, row: SessionRow, t: Told) {
    && row.custody == t.custody && row.sub == t.sub && row.createdAt == t.bornAt
    && row.absoluteExp == t.AbsoluteEnd(p) && row.idleExp == t.IdleEnd(p)
    && t.mints != [] && row.currentGen == |t.mints|
    && row.tombstonedAt == t.out && (row.status.Alive? <==> t.out.None?)
  }

  ghost predicate RowsTold(p: SessionPolicy, rows: map<Sid, SessionRow>, told: map<Sid, Told>) {
    && rows.Keys == told.Keys
    && forall sid {:trigger RowTold(p, rows[sid], told[sid])} :: sid in told ==> RowTold(p, rows[sid], told[sid])
  }

  /** The `i`th token of a session, counting from zero. */
  function GenTold(p: SessionPolicy, t: Told, i: nat): Generation
    requires i < |t.mints|
  {
    Generation(i + 1, t.mints[i].hash, t.mints[i].at, t.mints[i].at + p.genTtl,
               if i + 1 < |t.mints| then Some(t.mints[i + 1].at) else None)
  }

  /** Each of a session's tokens is on the ledger with the dates it was minted and superseded at. */
  ghost predicate GensTold(p: SessionPolicy, ledger: map<TokenHash, GenRow>, sid: Sid, t: Told) {
    forall i {:trigger t.mints[i]} :: 0 <= i < |t.mints| ==>
      t.mints[i].hash in ledger && ledger[t.mints[i].hash] == GenRow(sid, GenTold(p, t, i))
  }

  /** A token on the ledger is one of those told. */
  predicate HashTold(row: GenRow, told: map<Sid, Told>, h: TokenHash) {
    && row.sid in told && 1 <= row.gen.genNo <= |told[row.sid].mints|
    && told[row.sid].mints[row.gen.genNo - 1].hash == h
  }

  ghost predicate LedgerTold(p: SessionPolicy, ledger: map<TokenHash, GenRow>, told: map<Sid, Told>) {
    && (forall sid {:trigger GensTold(p, ledger, sid, told[sid])} :: sid in told ==>
          GensTold(p, ledger, sid, told[sid]))
    && (forall h {:trigger HashTold(ledger[h], told, h)} :: h in ledger ==> HashTold(ledger[h], told, h))
  }

  /** What only memory knows: the custody's health, and whether the plaintext is in hand. */
  ghost predicate EntriesTold(entries: map<Sid, Entry>, told: map<Sid, Told>) {
    forall sid :: sid in entries ==>
      && sid in told && entries[sid].custodyStatus == told[sid].health
      && (entries[sid].currentToken.Some? <==> told[sid].inHand)
  }

  /** Nothing is told of the future. */
  ghost predicate DatesTold(clock: Timestamp, told: map<Sid, Told>) {
    && (forall sid, i {:trigger told[sid].mints[i]} :: sid in told && 0 <= i < |told[sid].mints| ==>
          told[sid].mints[i].at <= clock)
    && forall sid :: sid in told ==> told[sid].lastUse <= clock
  }

  ghost predicate AsTold(p: SessionPolicy, y: System, told: map<Sid, Told>) {
    && RowsTold(p, Replay(y.log).sessions, told) && LedgerTold(p, y.ledger, told)
    && EntriesTold(y.store.sessions, told) && DatesTold(y.clock, told)
  }

  // ---------------------------------------------------------------------------------------
  // One session told anew
  // ---------------------------------------------------------------------------------------

  lemma RowRetold(p: SessionPolicy, rows: map<Sid, SessionRow>, told: map<Sid, Told>, sid: Sid, row: SessionRow,
                  t: Told)
    requires RowsTold(p, rows, told) && RowTold(p, row, t)
    ensures RowsTold(p, rows[sid := row], told[sid := t])
  {
    var rows', told' := rows[sid := row], told[sid := t];
    forall x | x in told' ensures RowTold(p, rows'[x], told'[x]) {
      if x != sid {
        assert RowTold(p, rows[x], told[x]);
      }
    }
  }

  /** Retold without a new token. */
  lemma LedgerRetold(p: SessionPolicy, ledger: map<TokenHash, GenRow>, told: map<Sid, Told>, told': map<Sid, Told>)
    requires LedgerTold(p, ledger, told) && told'.Keys == told.Keys
    requires forall sid :: sid in told ==> told'[sid].mints == told[sid].mints
    ensures LedgerTold(p, ledger, told')
  {
    forall sid | sid in told' ensures GensTold(p, ledger, sid, told'[sid]) {
      assert GensTold(p, ledger, sid, told[sid]);
      forall i | 0 <= i < |told'[sid].mints|
        ensures told'[sid].mints[i].hash in ledger
        ensures ledger[told'[sid].mints[i].hash] == GenRow(sid, GenTold(p, told'[sid], i))
      {
        assert told[sid].mints[i].hash in ledger;
      }
    }
    forall h | h in ledger ensures HashTold(ledger[h], told', h) {
      assert HashTold(ledger[h], told, h);
    }
  }

  lemma DatesRetold(clock: Timestamp, now: Timestamp, told: map<Sid, Told>, sid: Sid, t: Told)
    requires DatesTold(clock, told) && clock <= now && t.lastUse <= now
    requires forall i {:trigger t.mints[i]} :: 0 <= i < |t.mints| ==> t.mints[i].at <= now
    ensures DatesTold(now, told[sid := t])
  {
    var told' := told[sid := t];
    forall x, i | x in told' && 0 <= i < |told'[x].mints| ensures told'[x].mints[i].at <= now {
      if x != sid {
        assert told[x].mints[i].at <= clock;
      }
    }
  }

  lemma DatesPass(clock: Timestamp, now: Timestamp, told: map<Sid, Told>)
    requires DatesTold(clock, told) && clock <= now
    ensures DatesTold(now, told)
  {
    forall x, i | x in told && 0 <= i < |told[x].mints| ensures told[x].mints[i].at <= now {
      assert told[x].mints[i].at <= clock;
    }
  }

  // ---------------------------------------------------------------------------------------
  // Minting
  // ---------------------------------------------------------------------------------------

  /** The newest generation of an entry is the token told last. */
  lemma NewestIsTold(p: SessionPolicy, ledger: map<TokenHash, GenRow>, sid: Sid, e: Entry, told: map<Sid, Told>)
    requires LedgerTold(p, ledger, told) && OnLedger(ledger, sid, e) && EntryOk(p, e)
    requires sid in told && e.currentGen == |told[sid].mints|
    ensures e.currentGen >= 1 && e.gens[|e.gens| - 1] == GenTold(p, told[sid], e.currentGen - 1)
  {
    var top := e.gens[|e.gens| - 1];
    TopOnLedger(ledger, sid, e);
    assert HashTold(ledger[top.hash], told, top.hash);
    assert GensTold(p, ledger, sid, told[sid]);
    assert told[sid].mints[top.genNo - 1].hash in ledger;
  }

  /** The ledger once a session's newest token is superseded and another is minted. */
  lemma MintTold(p: SessionPolicy, ledger: map<TokenHash, GenRow>, told: map<Sid, Told>, sid: Sid, e: Entry,
                 now: Timestamp, newHash: TokenHash)
    requires LedgerTold(p, ledger, told) && OnLedger(ledger, sid, e) && EntryOk(p, e)
    requires sid in told && e.currentGen == |told[sid].mints| && newHash !in ledger
    ensures var t := told[sid];
            LedgerTold(p, Entered(ledger, sid, GrowEffects(e, now, p, newHash)),
                       told[sid := t.(mints := t.mints + [Minting(newHash, now)])])
  {
    var t, ledger' := told[sid], Entered(ledger, sid, GrowEffects(e, now, p, newHash));
    var t' := t.(mints := t.mints + [Minting(newHash, now)]);
    var told' := told[sid := t'];
    NewestIsTold(p, ledger, sid, e, told);
    TopOnLedger(ledger, sid, e);
    EnteredPointwise(ledger, sid, e, now, p, newHash);
    forall x | x in told' ensures GensTold(p, ledger', x, told'[x]) {
      assert x in told && GensTold(p, ledger, x, told[x]);
      forall i | 0 <= i < |told'[x].mints|
        ensures told'[x].mints[i].hash in ledger'
        ensures ledger'[told'[x].mints[i].hash] == GenRow(x, GenTold(p, told'[x], i))
      {
        MintedRowTold(p, ledger, told, sid, e, now, newHash, x, i);
      }
    }
    forall h | h in ledger' ensures HashTold(ledger'[h], told', h) {
      if h != newHash {
        assert HashTold(ledger[h], told, h);
      }
    }
  }

  lemma MintedRowTold(p: SessionPolicy, ledger: map<TokenHash, GenRow>, told: map<Sid, Told>, sid: Sid, e: Entry,
                      now: Timestamp, newHash: TokenHash, x: Sid, i: nat)
    requires LedgerTold(p, ledger, told) && OnLedger(ledger, sid, e) && EntryOk(p, e)
    requires sid in told && e.currentGen == |told[sid].mints| && newHash !in ledger && x in told
    requires i < |told[x].mints| + if x == sid then 1 else 0
    ensures var ledger' := Entered(ledger, sid, GrowEffects(e, now, p, newHash));
            var t' := if x == sid then told[x].(mints := told[x].mints + [Minting(newHash, now)]) else told[x];
            t'.mints[i].hash in ledger' && ledger'[t'.mints[i].hash] == GenRow(x, GenTold(p, t', i))
  {
    NewestIsTold(p, ledger, sid, e, told);
    TopOnLedger(ledger, sid, e);
    EnteredPointwise(ledger, sid, e, now, p, newHash);
    assert GensTold(p, ledger, x, told[x]);
    if i < |told[x].mints| {
      assert told[x].mints[i].hash in ledger;
    }
  }

  // ---------------------------------------------------------------------------------------
  // Every step is as told
  // ---------------------------------------------------------------------------------------

  lemma CreateTold(p: SessionPolicy, y: System, told: map<Sid, Told>, op: Op)
    requires Inv(p, y) && AsTold(p, y, told) && op.Create? && Valid(y, op)
    ensures AsTold(p, Step(p, y, op), Tell(p, y.store, told, op))
  {
    var e := NewEntry(op.sid, op.custody, op.sub, op.now, p, op.newHash);
    var y' := Step(p, y, op);
    var t := Told(op.custody, op.sub, op.now, [Minting(op.newHash, op.now)], true, op.now, None, Ok);
    var told' := told[op.sid := t];
    CreatedDb(p, y, op.sid, op.custody, op.sub, op.now, op.newHash);
    RowRetold(p, Replay(y.log).sessions, told, op.sid, NewRow(e, op.now), t);
    DatesRetold(y.clock, op.now, told, op.sid, t);
    SeedTold(p, y.ledger, told, op.sid, t);
    assert e.gens[0] == GenTold(p, t, 0);
  }

  lemma SeedTold(p: SessionPolicy, ledger: map<TokenHash, GenRow>, told: map<Sid, Told>, sid: Sid, t: Told)
    requires LedgerTold(p, ledger, told) && sid !in told && |t.mints| == 1 && t.mints[0].hash !in ledger
    ensures LedgerTold(p, ledger[t.mints[0].hash := GenRow(sid, GenTold(p, t, 0))], told[sid := t])
  {
    var newHash := t.mints[0].hash;
    var ledger', told' := ledger[newHash := GenRow(sid, GenTold(p, t, 0))], told[sid := t];
    forall x | x in told' ensures GensTold(p, ledger', x, told'[x]) {
      if x != sid {
        assert GensTold(p, ledger, x, told[x]);
        forall i | 0 <= i < |told[x].mints|
          ensures told[x].mints[i].hash in ledger'
          ensures ledger'[told[x].mints[i].hash] == GenRow(x, GenTold(p, told[x], i))
        {
          assert told[x].mints[i].hash in ledger;
        }
      }
    }
    forall h | h in ledger' ensures HashTold(ledger'[h], told', h) {
      if h != newHash {
        assert HashTold(ledger[h], told, h);
      }
    }
  }

  /** A session in memory is as told. */
  lemma EntryRowTold(p: SessionPolicy, y: System, told: map<Sid, Told>, sid: Sid)
    requires Inv(p, y) && AsTold(p, y, told) && sid in y.store.sessions
    ensures sid in told && sid in Replay(y.log).sessions
    ensures Stands(p, y, Replay(y.log), sid, y.store.sessions[sid])
    ensures RowTold(p, Replay(y.log).sessions[sid], told[sid])
    ensures RowMatches(Replay(y.log).sessions[sid], y.store.sessions[sid])
  {
    HasRow(p, y, Replay(y.log), sid);
  }

  /** Whether a refresh coalesces is as told. */
  lemma CoalescesAsTold(p: SessionPolicy, y: System, told: map<Sid, Told>, sid: Sid, now: Timestamp)
    requires Inv(p, y) && AsTold(p, y, told) && sid in y.store.sessions && y.clock <= now
    ensures sid in told && told[sid].mints != [] && y.store.sessions[sid].gens != []
    ensures Coalesces(y.store.sessions[sid], now, p) <==>
              told[sid].inHand && now - told[sid].mints[|told[sid].mints| - 1].at < p.coalesce
  {
    EntryRowTold(p, y, told, sid);
    NewestIsTold(p, y.ledger, sid, y.store.sessions[sid], told);
    assert told[sid].mints[|told[sid].mints| - 1].at <= y.clock;
  }

  /** One entry moved, and memory knows of it what is told. */
  ghost predicate EntryMoved(entries: map<Sid, Entry>, entries': map<Sid, Entry>, sid: Sid, t: Told) {
    && sid in entries && entries'.Keys == entries.Keys
    && (forall x :: x in entries && x != sid ==> entries'[x] == entries[x])
    && entries'[sid].custodyStatus == t.health && (entries'[sid].currentToken.Some? <==> t.inHand)
  }

  /** One session retold, in every place it is told of. */
  lemma OneRetold(p: SessionPolicy, y: System, y': System, told: map<Sid, Told>, sid: Sid, row: SessionRow, t: Told)
    requires AsTold(p, y, told) && y.clock <= y'.clock
    requires Replay(y'.log).sessions == Replay(y.log).sessions[sid := row] && RowTold(p, row, t)
    requires LedgerTold(p, y'.ledger, told[sid := t]) && EntryMoved(y.store.sessions, y'.store.sessions, sid, t)
    requires MintsDated(t, y'.clock) && t.lastUse <= y'.clock
    ensures AsTold(p, y', told[sid := t])
  {
    RowRetold(p, Replay(y.log).sessions, told, sid, row, t);
    DatesRetold(y.clock, y'.clock, told, sid, t);
  }

  ghost predicate MintsDated(t: Told, now: Timestamp) {
    forall i {:trigger t.mints[i]} :: 0 <= i < |t.mints| ==> t.mints[i].at <= now
  }

  lemma MintsWereDated(clock: Timestamp, now: Timestamp, told: map<Sid, Told>, sid: Sid)
    requires DatesTold(clock, told) && clock <= now && sid in told
    ensures MintsDated(told[sid], now)
  {
    forall i | 0 <= i < |told[sid].mints| ensures told[sid].mints[i].at <= now {
      assert told[sid].mints[i].at <= clock;
    }
  }

  lemma SlidRowTold(p: SessionPolicy, row: SessionRow, e: Entry, t: Told, now: Timestamp)
    requires RowTold(p, row, t) && RowMatches(row, e)
    ensures RowTold(p, SlidRow(row, e, now, p), t.(lastUse := now))
  {
  }

  lemma CoalescedMoves(p: SessionPolicy, y: System, hash: TokenHash, now: Timestamp, newHash: TokenHash, t: Told)
    requires y.clock <= now && Finds(y, hash)
    requires var e := y.store.sessions[y.store.index[hash]];
             && EntryRefresh(e, hash, now, p, newHash).result.Issued? && Coalesces(e, now, p)
             && e.custodyStatus == t.health && (e.currentToken.Some? <==> t.inHand)
    ensures var y' := AfterRefresh(p, y, hash, now, newHash);
            && EntryMoved(y.store.sessions, y'.store.sessions, y.store.index[hash], t.(lastUse := now))
            && y'.ledger == y.ledger && y'.clock == now
  {
    RefreshSlides(p, y, hash, now, newHash);
  }

  lemma CoalescedTold(p: SessionPolicy, y: System, told: map<Sid, Told>, hash: TokenHash, now: Timestamp,
                      newHash: TokenHash, sid: Sid)
    requires AsTold(p, y, told) && y.clock <= now && Finds(y, hash) && sid == y.store.index[hash]
    requires sid in told && sid in Replay(y.log).sessions
    requires RowMatches(Replay(y.log).sessions[sid], y.store.sessions[sid])
    requires var e := y.store.sessions[sid];
             EntryRefresh(e, hash, now, p, newHash).result.Issued? && Coalesces(e, now, p)
    ensures AsTold(p, AfterRefresh(p, y, hash, now, newHash), told[sid := told[sid].(lastUse := now)])
  {
    var db, e, t' := Replay(y.log), y.store.sessions[sid], told[sid].(lastUse := now);
    assert RowTold(p, db.sessions[sid], told[sid]);
    SlidRowTold(p, db.sessions[sid], e, told[sid], now);
    CoalescedMoves(p, y, hash, now, newHash, told[sid]);
    RefreshCoalescesLog(p, y, db, hash, now, newHash);
    LedgerRetold(p, y.ledger, told, told[sid := t']);
    MintsWereDated(y.clock, now, told, sid);
    OneRetold(p, y, AfterRefresh(p, y, hash, now, newHash), told, sid, SlidRow(db.sessions[sid], e, now, p), t');
  }

  lemma MintedRow(p: SessionPolicy, row: SessionRow, e: Entry, t: Told, now: Timestamp, newHash: TokenHash)
    requires RowTold(p, row, t) && RowMatches(row, e)
    ensures RowTold(p, row.(currentGen := e.currentGen + 1, idleExp := Min(now + p.idleTtl, e.absoluteExp)),
                    WithMint(t, now, newHash))
  {
  }

  lemma MintedMoves(p: SessionPolicy, y: System, hash: TokenHash, now: Timestamp, newHash: TokenHash, t: Told)
    requires y.clock <= now && Finds(y, hash)
    requires var e := y.store.sessions[y.store.index[hash]];
             && EntryRefresh(e, hash, now, p, newHash).result.Issued? && !Coalesces(e, now, p)
             && e.custodyStatus == t.health
    ensures var sid, y' := y.store.index[hash], AfterRefresh(p, y, hash, now, newHash);
            && EntryMoved(y.store.sessions, y'.store.sessions, sid, WithMint(t, now, newHash)) && y'.clock == now
            && y'.ledger == Entered(y.ledger, sid, GrowEffects(y.store.sessions[sid], now, p, newHash))
  {
    RefreshMintsTo(p, y, hash, now, newHash);
  }

  lemma MintedLedgerTold(p: SessionPolicy, ledger: map<TokenHash, GenRow>, told: map<Sid, Told>, sid: Sid, e: Entry,
                         now: Timestamp, newHash: TokenHash)
    requires LedgerTold(p, ledger, told) && OnLedger(ledger, sid, e) && EntryOk(p, e)
    requires sid in told && e.currentGen == |told[sid].mints| && newHash !in ledger
    ensures LedgerTold(p, Entered(ledger, sid, GrowEffects(e, now, p, newHash)),
                       told[sid := WithMint(told[sid], now, newHash)])
  {
    var t := told[sid];
    var grown := told[sid := t.(mints := t.mints + [Minting(newHash, now)])];
    MintTold(p, ledger, told, sid, e, now, newHash);
    LedgerRetold(p, Entered(ledger, sid, GrowEffects(e, now, p, newHash)), grown,
                 told[sid := WithMint(t, now, newHash)]);
  }

  lemma MintedSessions(p: SessionPolicy, y: System, hash: TokenHash, now: Timestamp, newHash: TokenHash, sid: Sid)
    requires Finds(y, hash) && sid == y.store.index[hash] && sid in Replay(y.log).sessions
    requires var e := y.store.sessions[sid];
             EntryRefresh(e, hash, now, p, newHash).result.Issued? && !Coalesces(e, now, p)
    ensures var row, e := Replay(y.log).sessions[sid], y.store.sessions[sid];
            Replay(AfterRefresh(p, y, hash, now, newHash).log).sessions
            == Replay(y.log).sessions[sid := row.(currentGen := e.currentGen + 1,
                                                  idleExp := Min(now + p.idleTtl, e.absoluteExp))]
  {
    RefreshMintsLog(p, y, hash, now, newHash);
  }

  /** What a mint moves: the session's row and entry, and the ledger. */
  ghost predicate MintMoved(p: SessionPolicy, y: System, y': System, sid: Sid, t: Told, now: Timestamp,
                            newHash: TokenHash)
    requires sid in y.store.sessions && sid in Replay(y.log).sessions && y.store.sessions[sid].gens != []
  {
    var row, e := Replay(y.log).sessions[sid], y.store.sessions[sid];
    && y'.clock == now && y'.ledger == Entered(y.ledger, sid, GrowEffects(e, now, p, newHash))
    && EntryMoved(y.store.sessions, y'.store.sessions, sid, WithMint(t, now, newHash))
    && Replay(y'.log).sessions
       == Replay(y.log).sessions[sid := row.(currentGen := e.currentGen + 1,
                                             idleExp := Min(now + p.idleTtl, e.absoluteExp))]
  }

  lemma MintMoves(p: SessionPolicy, y: System, hash: TokenHash, now: Timestamp, newHash: TokenHash, sid: Sid, t: Told)
    requires y.clock <= now && Finds(y, hash) && sid == y.store.index[hash] && sid in Replay(y.log).sessions
    requires var e := y.store.sessions[sid];
             && EntryRefresh(e, hash, now, p, newHash).result.Issued? && !Coalesces(e, now, p)
             && e.custodyStatus == t.health
    ensures MintMoved(p, y, AfterRefresh(p, y, hash, now, newHash), sid, t, now, newHash)
  {
    MintedMoves(p, y, hash, now, newHash, t);
    MintedSessions(p, y, hash, now, newHash, sid);
  }

  /** A session that mints, retold in every place. */
  lemma MintRetold(p: SessionPolicy, y: System, y': System, told: map<Sid, Told>, sid: Sid, now: Timestamp,
                   newHash: TokenHash)
    requires Inv(p, y) && AsTold(p, y, told) && y.clock <= now && newHash !in y.ledger && sid in y.store.sessions
    requires sid in told && sid in Replay(y.log).sessions && y.store.sessions[sid].gens != []
    requires MintMoved(p, y, y', sid, told[sid], now, newHash)
    ensures AsTold(p, y', told[sid := WithMint(told[sid], now, newHash)])
  {
    var row, e, t := Replay(y.log).sessions[sid], y.store.sessions[sid], told[sid];
    EntryRowTold(p, y, told, sid);
    MintedRow(p, row, e, t, now, newHash);
    MintedLedgerTold(p, y.ledger, told, sid, e, now, newHash);
    MintsWereDated(y.clock, now, told, sid);
    OneRetold(p, y, y', told, sid,
              row.(currentGen := e.currentGen + 1, idleExp := Min(now + p.idleTtl, e.absoluteExp)),
              WithMint(t, now, newHash));
  }

  /** Whether a presented token is served is told by its resolution. */
  lemma ServedAsTold(p: SessionPolicy, y: System, told: map<Sid, Told>, hash: TokenHash, now: Timestamp,
                     newHash: TokenHash)
    requires Inv(p, y) && AsTold(p, y, told) && y.clock <= now
    ensures var v := Resolve(p, y.store, hash, now);
            if v.Active? || v.StaleRefreshable? then
              && Finds(y, hash) && v.sid == y.store.index[hash] && v.sid in told && told[v.sid].mints != []
              && EntryRefresh(y.store.sessions[v.sid], hash, now, p, newHash).result.Issued?
            else AfterRefresh(p, y, hash, now, newHash) == y.(clock := now)
  {
    if hash in y.store.index {
      Held(p, y, Replay(y.log), hash);
      EntryRowTold(p, y, told, y.store.index[hash]);
    }
  }

  lemma ServedTold(p: SessionPolicy, y: System, told: map<Sid, Told>, hash: TokenHash, now: Timestamp,
                   newHash: TokenHash, sid: Sid)
    requires Inv(p, y) && AsTold(p, y, told) && y.clock <= now && newHash !in y.ledger
    requires Finds(y, hash) && sid == y.store.index[hash]
    requires EntryRefresh(y.store.sessions[sid], hash, now, p, newHash).result.Issued?
    ensures sid in told && told[sid].mints != []
    ensures AsTold(p, AfterRefresh(p, y, hash, now, newHash), told[sid := Refreshes(p, told[sid], now, newHash)])
  {
    EntryRowTold(p, y, told, sid);
    CoalescesAsTold(p, y, told, sid, now);
    if Coalesces(y.store.sessions[sid], now, p) {
      CoalescedTold(p, y, told, hash, now, newHash, sid);
    } else {
      MintMoves(p, y, hash, now, newHash, sid, told[sid]);
      MintRetold(p, y, AfterRefresh(p, y, hash, now, newHash), told, sid, now, newHash);
    }
  }

  lemma RefreshTold(p: SessionPolicy, y: System, told: map<Sid, Told>, hash: TokenHash, now: Timestamp,
                    newHash: TokenHash)
    requires Inv(p, y) && AsTold(p, y, told) && y.clock <= now && newHash !in y.ledger
    ensures AsTold(p, AfterRefresh(p, y, hash, now, newHash), Tell(p, y.store, told, Refresh(hash, now, newHash)))
  {
    var v := Resolve(p, y.store, hash, now);
    ServedAsTold(p, y, told, hash, now, newHash);
    if v.Active? || v.StaleRefreshable? {
      ServedTold(p, y, told, hash, now, newHash, v.sid);
    } else {
      DatesPass(y.clock, now, told);
    }
  }

  lemma BuriedRow(p: SessionPolicy, row: SessionRow, t: Told, now: Timestamp)
    requires RowTold(p, row, t)
    ensures RowTold(p, row.(status := Tombstoned, tombstonedAt := Some(now)), t.(out := Some(now), inHand := false))
  {
  }

  lemma BuriedMoves(y: System, sid: Sid, now: Timestamp, t: Told)
    requires sid in y.store.sessions && y.store.sessions[sid].status.Alive?
    requires y.store.sessions[sid].custodyStatus == t.health
    ensures EntryMoved(y.store.sessions, AfterTombstone(y, sid, now).store.sessions, sid,
                       t.(out := Some(now), inHand := false))
  {
  }

  lemma TombstoneTold(p: SessionPolicy, y: System, told: map<Sid, Told>, sid: Sid, now: Timestamp)
    requires Inv(p, y) && AsTold(p, y, told) && y.clock <= now
    ensures AsTold(p, AfterTombstone(y, sid, now), Tell(p, y.store, told, Tombstone(sid, now)))
  {
    if sid in y.store.sessions {
      EntryRowTold(p, y, told, sid);
    }
    if sid in y.store.sessions && y.store.sessions[sid].status.Alive? {
      BuryTold(p, y, told, sid, now);
    } else {
      DatesPass(y.clock, now, told);
    }
  }

  lemma BuryTold(p: SessionPolicy, y: System, told: map<Sid, Told>, sid: Sid, now: Timestamp)
    requires AsTold(p, y, told) && y.clock <= now && sid in y.store.sessions && y.store.sessions[sid].status.Alive?
    requires sid in told && sid in Replay(y.log).sessions
    requires RowMatches(Replay(y.log).sessions[sid], y.store.sessions[sid])
    requires y.store.sessions[sid].tombstonedAt.None?
    ensures AsTold(p, AfterTombstone(y, sid, now), told[sid := told[sid].(out := Some(now), inHand := false)])
  {
    var row, t' := Replay(y.log).sessions[sid], told[sid].(out := Some(now), inHand := false);
    assert RowTold(p, row, told[sid]);
    BuriedRow(p, row, told[sid], now);
    BuriedMoves(y, sid, now, told[sid]);
    ReplayOne(y.log, TombstoneSession(sid, now));
    LedgerRetold(p, y.ledger, told, told[sid := t']);
    MintsWereDated(y.clock, now, told, sid);
    OneRetold(p, y, AfterTombstone(y, sid, now), told, sid, row.(status := Tombstoned, tombstonedAt := Some(now)), t');
  }

  /** Retold of all at once, but for what only memory knows. */
  lemma AllRetold(p: SessionPolicy, y: System, told: map<Sid, Told>, told': map<Sid, Told>)
    requires AsTold(p, y, told) && told'.Keys == told.Keys
    requires forall sid :: sid in told ==>
               told'[sid] == told[sid].(health := told'[sid].health, inHand := told'[sid].inHand)
    ensures RowsTold(p, Replay(y.log).sessions, told') && LedgerTold(p, y.ledger, told') && DatesTold(y.clock, told')
  {
    var rows := Replay(y.log).sessions;
    forall x | x in told' ensures RowTold(p, rows[x], told'[x]) {
      assert RowTold(p, rows[x], told[x]);
    }
    LedgerRetold(p, y.ledger, told, told');
    forall x, i | x in told' && 0 <= i < |told'[x].mints| ensures told'[x].mints[i].at <= y.clock {
      assert told[x].mints[i].at <= y.clock;
    }
  }

  lemma SetCustodyTold(p: SessionPolicy, y: System, told: map<Sid, Told>, custody: CustodyId, status: CustodyStatus)
    requires Inv(p, y) && AsTold(p, y, told)
    ensures AsTold(p, AfterSetCustody(y, custody, status), Tell(p, y.store, told, SetCustody(custody, status)))
  {
    AllRetold(p, y, told, Tell(p, y.store, told, SetCustody(custody, status)));
    forall sid | sid in y.store.sessions ensures sid in told && y.store.sessions[sid].custody == told[sid].custody {
      EntryRowTold(p, y, told, sid);
    }
  }

  lemma ReapTold(p: SessionPolicy, y: System, told: map<Sid, Told>, sid: Sid, now: Timestamp)
    requires Inv(p, y) && AsTold(p, y, told) && y.clock <= now
    ensures AsTold(p, AfterReap(p, y, sid, now), told)
  {
    DatesPass(y.clock, now, told);
    if sid in y.store.sessions && !Collectible(y.store.sessions[sid], now, p) {
      var effects := Effects(None, None, Reap(y.store.sessions[sid], now, p).purged);
      ReplayAppends(y.log, EffectCommands(sid, effects));
      EffectsOnTables(Replay(y.log), sid, effects);
    }
  }

  lemma StepTold(p: SessionPolicy, y: System, told: map<Sid, Told>, op: Op)
    requires Inv(p, y) && AsTold(p, y, told) && Valid(y, op)
    ensures AsTold(p, Step(p, y, op), Tell(p, y.store, told, op))
  {
    match op
    case Create(_, _, _, _, _) => CreateTold(p, y, told, op);
    case Refresh(hash, now, newHash) => RefreshTold(p, y, told, hash, now, newHash);
    case Tombstone(sid, now) => TombstoneTold(p, y, told, sid, now);
    case SetCustody(custody, status) => SetCustodyTold(p, y, told, custody, status);
    case ReapOne(sid, now) => ReapTold(p, y, told, sid, now);
    case CollectOne(sid, now) => DatesPass(y.clock, now, told);
    case Restart => AllRetold(p, y, told, Tell(p, y.store, told, Restart));
  }

  lemma {:induction false} RunTold(p: SessionPolicy, y: System, told: map<Sid, Told>, ops: seq<Op>)
    requires Inv(p, y) && AsTold(p, y, told) && ValidRun(p, y, ops)
    ensures AsTold(p, Run(p, y, ops), TellAll(p, y, told, ops)) && Inv(p, Run(p, y, ops))
    decreases |ops|
  {
    if ops != [] {
      StepTold(p, y, told, ops[0]);
      StepKeeps(p, y, ops[0]);
      RunTold(p, Step(p, y, ops[0]), Tell(p, y.store, told, ops[0]), ops[1..]);
    }
  }
}
