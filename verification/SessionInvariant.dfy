/** What every operation keeps of the whole system: the index is exactly the union of the entries'
    hashes, and the tables the log builds hold exactly the rows memory stands for. */
module SessionInvariant {
  import opened Prelude
  import opened Custody
  import opened SessionModel
  import opened SessionStore
  import opened SessionEntryFacts

  // ---------------------------------------------------------------------------------------
  // The index
  // ---------------------------------------------------------------------------------------

  /** Every index entry leads to a session that claims the hash, and every claimed hash is
      indexed to its session. */
  ghost predicate IndexExact(s: Store) {
    && (forall h :: h in s.index ==> s.index[h] in s.sessions && h in AllHashes(s.sessions[s.index[h]]))
    && (forall sid, h :: sid in s.sessions && h in AllHashes(s.sessions[sid]) ==> h in s.index && s.index[h] == sid)
  }

  // ---------------------------------------------------------------------------------------
  // The ledger
  // ---------------------------------------------------------------------------------------

  predicate GenOnLedger(ledger: map<TokenHash, GenRow>, sid: Sid, g: Generation) {
    g.hash in ledger && ledger[g.hash] == GenRow(sid, g)
  }

  predicate MarkOnLedger(ledger: map<TokenHash, GenRow>, sid: Sid, m: Mark) {
    && m.hash in ledger
    && ledger[m.hash].sid == sid
    && ledger[m.hash].gen.genNo == m.genNo
    && ledger[m.hash].gen.supersededAt.Some?
  }

  /** An entry's generations and marks are what the ledger says they are. */
  ghost predicate OnLedger(ledger: map<TokenHash, GenRow>, sid: Sid, e: Entry) {
    && (forall g :: g in e.gens ==> GenOnLedger(ledger, sid, g))
    && (forall m :: m in e.retired ==> MarkOnLedger(ledger, sid, m))
  }

  /** What the clock and the record of deaths say about an entry. */
  ghost predicate Dated(p: SessionPolicy, y: System, sid: Sid, e: Entry) {
    && sid in y.sids
    && (e.custodyStatus.Dead? ==> e.custody in y.revoked)
    && (forall m :: m in e.retired ==> m.hash in y.ledger && Spent(p, y, m.hash))
  }

  /** Its window has passed, or the cap pushed it out. */
  predicate Spent(p: SessionPolicy, y: System, hash: TokenHash)
    requires hash in y.ledger
  {
    y.clock >= y.ledger[hash].gen.ValidUntil(p.grace) || hash in y.capped
  }

  // ---------------------------------------------------------------------------------------
  // The tables
  // ---------------------------------------------------------------------------------------

  ghost predicate RowsOnLedger(db: Db, ledger: map<TokenHash, GenRow>) {
    forall h :: h in db.gens ==> h in ledger && db.gens[h] == ledger[h]
  }

  ghost predicate LedgerOk(db: Db, ledger: map<TokenHash, GenRow>) {
    forall h {:trigger LedgerRowOk(db, ledger[h], h)} :: h in ledger ==> LedgerRowOk(db, ledger[h], h)
  }

  ghost predicate NumbersUnique(ledger: map<TokenHash, GenRow>) {
    forall h, k :: h in ledger && k in ledger && h != k && ledger[h].sid == ledger[k].sid ==>
      ledger[h].gen.genNo != ledger[k].gen.genNo
  }

  ghost predicate SessionRowsOk(db: Db) {
    forall sid {:trigger SessionRowOk(db, sid)} :: sid in db.sessions ==> SessionRowOk(db, sid)
  }

  /** The tables taken by themselves: every row is on the ledger, generation numbers are unique in
      a session, and its newest generation is there and the only one not superseded. */
  ghost predicate TablesOk(db: Db, ledger: map<TokenHash, GenRow>) {
    RowsOnLedger(db, ledger) && LedgerOk(db, ledger) && NumbersUnique(ledger) && SessionRowsOk(db)
  }

  predicate LedgerRowOk(db: Db, row: GenRow, h: TokenHash) {
    && row.gen.hash == h
    && row.sid in db.sessions
    && row.gen.genNo <= db.sessions[row.sid].currentGen
    && (row.gen.supersededAt.None? <==> row.gen.genNo == db.sessions[row.sid].currentGen)
  }

  ghost predicate SessionRowOk(db: Db, sid: Sid)
    requires sid in db.sessions
  {
    && HasTop(db, sid, db.sessions[sid].currentGen)
    && db.sessions[sid].idleExp <= db.sessions[sid].absoluteExp
    && (db.sessions[sid].status.Tombstoned? <==> db.sessions[sid].tombstonedAt.Some?)
  }

  ghost predicate HasTop(db: Db, sid: Sid, genNo: nat) {
    exists h :: h in db.gens && db.gens[h].sid == sid && db.gens[h].gen.genNo == genNo
  }

  predicate RowMatches(row: SessionRow, e: Entry) {
    && row.custody == e.custody && row.sub == e.sub && row.currentGen == e.currentGen
    && row.idleExp == e.idleExp && row.absoluteExp == e.absoluteExp
    && row.status == e.status && row.tombstonedAt == e.tombstonedAt
  }

  /** The hashes of a session that have a row are exactly `hashes`. */
  ghost predicate KeysMatch(gens: map<TokenHash, GenRow>, ledger: map<TokenHash, GenRow>, sid: Sid,
                            hashes: set<TokenHash>) {
    forall h :: h in ledger && ledger[h].sid == sid ==> (h in gens <==> h in hashes)
  }

  /** A session's rows are exactly its generations and its retired memory. */
  ghost predicate RowsMatch(db: Db, ledger: map<TokenHash, GenRow>, sid: Sid, e: Entry) {
    && sid in db.sessions && RowMatches(db.sessions[sid], e)
    && KeysMatch(db.gens, ledger, sid, AllHashes(e))
  }

  /** The custody was once reported dead, and that ends its sessions. */
  predicate EndedBy(p: SessionPolicy, y: System, custody: CustodyId) {
    custody in y.revoked && p.onUpstreamRevoked.Kill?
  }

  /** A session the sweep forgot is past its idle expiry or was ended by its custody's death; no
      session exists that was never created. */
  ghost predicate ForgottenAreOver(p: SessionPolicy, db: Db, y: System) {
    && db.sessions.Keys == y.sids
    && forall sid :: sid in db.sessions && sid !in y.store.sessions && db.sessions[sid].status.Alive? ==>
         y.clock >= db.sessions[sid].idleExp || EndedBy(p, y, db.sessions[sid].custody)
  }

  /** Everything said of one session: its entry is in order, the ledger and the tables hold what
      the entry stands for. */
  ghost predicate Stands(p: SessionPolicy, y: System, db: Db, sid: Sid, e: Entry) {
    && EntryOk(p, e) && e.sid == sid
    && OnLedger(y.ledger, sid, e) && Dated(p, y, sid, e) && RowsMatch(db, y.ledger, sid, e)
  }

  ghost predicate AllStand(p: SessionPolicy, y: System, db: Db) {
    forall sid {:trigger Stands(p, y, db, sid, y.store.sessions[sid])} ::
      sid in y.store.sessions ==> Stands(p, y, db, sid, y.store.sessions[sid])
  }

  ghost predicate Inv(p: SessionPolicy, y: System) {
    InvWith(p, y, Replay(y.log))
  }

  /** The invariant, with `db` for the tables the log builds. */
  ghost predicate InvWith(p: SessionPolicy, y: System, db: Db) {
    AllStand(p, y, db) && IndexExact(y.store) && TablesOk(db, y.ledger) && ForgottenAreOver(p, db, y)
  }

  // ---------------------------------------------------------------------------------------
  // What a batch of effects does to the tables
  // ---------------------------------------------------------------------------------------

  lemma {:induction false} DeletesRemove(db: Db, purged: seq<TokenHash>)
    ensures ExecuteAll(db, Deletes(purged)) == db.(gens := db.gens - set h | h in purged)
    decreases |purged|
  {
    if purged == [] {
      assert db.gens - (set h | h in purged) == db.gens;
    } else {
      var db' := Execute(db, DeleteGeneration(purged[0]));
      assert Deletes(purged)[1..] == Deletes(purged[1..]);
      DeletesRemove(db', purged[1..]);
      assert (set h | h in purged) == {purged[0]} + (set h | h in purged[1..]);
      assert db.gens - (set h | h in purged) == (db.gens - {purged[0]}) - (set h | h in purged[1..]);
    }
  }

  lemma {:induction false} ExecuteSplits(db: Db, a: seq<Command>, b: seq<Command>)
    ensures ExecuteAll(db, a + b) == ExecuteAll(ExecuteAll(db, a), b)
    decreases |a|
  {
    if a == [] {
      assert a + b == b;
    } else {
      assert (a + b)[0] == a[0] && (a + b)[1..] == a[1..] + b;
      ExecuteSplits(Execute(db, a[0]), a[1..], b);
    }
  }

  /** The tables move as the ledger does, and lose what the index loses. */
  lemma EffectsOnTables(db: Db, sid: Sid, effects: Effects)
    requires effects.added.Some? ==> effects.added.value.supersededAt.None?
    ensures ExecuteAll(db, EffectCommands(sid, effects))
         == db.(gens := Entered(db.gens, sid, effects) - set h | h in effects.purged)
  {
    var added := if effects.added.Some? then [InsertCommand(sid, effects.added.value)] else [];
    var superseded := if effects.superseded.Some?
                      then [SupersedeGeneration(effects.superseded.value.hash, effects.superseded.value.at)] else [];
    ExecuteSplits(db, added + superseded, Deletes(effects.purged));
    ExecuteSplits(db, added, superseded);
    DeletesRemove(db.(gens := Entered(db.gens, sid, effects)), effects.purged);
  }

  // ---------------------------------------------------------------------------------------
  // One session mutated
  // ---------------------------------------------------------------------------------------

  function Gone(effects: Effects): set<TokenHash> {
    set h | h in effects.purged
  }

  function AddedHash(effects: Effects): set<TokenHash> {
    if effects.added.Some? then {effects.added.value.hash} else {}
  }

  /** The mutation's effects account for how the entry's hashes change. */
  predicate Accounts(e: Entry, e': Entry, effects: Effects) {
    && Gone(effects) <= AllHashes(e)
    && AddedHash(effects) !! AllHashes(e)
    && AllHashes(e') == AllHashes(e) + AddedHash(effects) - Gone(effects)
  }

  lemma IndexMutated(s: Store, sid: Sid, e': Entry, effects: Effects)
    requires IndexExact(s) && sid in s.sessions && Accounts(s.sessions[sid], e', effects)
    requires AddedHash(effects) !! s.index.Keys
    ensures IndexExact(Store(s.sessions[sid := e'], AppliedIndex(s.index, sid, effects)))
  {
    var s' := Store(s.sessions[sid := e'], AppliedIndex(s.index, sid, effects));
    forall h | h in s'.index ensures s'.index[h] in s'.sessions && h in AllHashes(s'.sessions[s'.index[h]]) {
      if h in AddedHash(effects) {
        assert s'.index[h] == sid;
      } else {
        assert s'.index[h] == s.index[h] && h !in Gone(effects);
      }
    }
    forall x, h | x in s'.sessions && h in AllHashes(s'.sessions[x]) ensures h in s'.index && s'.index[h] == x {
      if x != sid {
        assert h in s.index && s.index[h] == x;
        assert h !in Gone(effects);
      } else if h in AllHashes(s.sessions[sid]) {
        assert h in s.index && s.index[h] == sid;
      }
    }
  }

  /** New generations are new to the ledger, and only this session's are superseded. */
  predicate LedgerSafe(ledger: map<TokenHash, GenRow>, sid: Sid, effects: Effects) {
    && AddedHash(effects) !! ledger.Keys
    && (effects.superseded.Some? ==>
          effects.superseded.value.hash in ledger && ledger[effects.superseded.value.hash].sid == sid)
  }

  lemma OnLedgerHashes(ledger: map<TokenHash, GenRow>, sid: Sid, e: Entry)
    requires OnLedger(ledger, sid, e)
    ensures forall h :: h in AllHashes(e) ==> h in ledger && ledger[h].sid == sid
  {
    forall h | h in AllHashes(e) ensures h in ledger && ledger[h].sid == sid {
      if h in HashSet(e.gens) {
        var g :| g in e.gens && g.hash == h;
        assert GenOnLedger(ledger, sid, g);
      } else {
        var m :| m in e.retired && m.hash == h;
        assert MarkOnLedger(ledger, sid, m);
      }
    }
  }

  lemma ReapOnLedger(p: SessionPolicy, ledger: map<TokenHash, GenRow>, sid: Sid, e: Entry, now: Timestamp)
    requires EntryOk(p, e) && OnLedger(ledger, sid, e)
    ensures OnLedger(ledger, sid, Reap(e, now, p).entry)
  {
    var e' := Reap(e, now, p).entry;
    ReapedGens(e, now, p);
    forall m | m in e'.retired ensures MarkOnLedger(ledger, sid, m) {
      if m !in e.retired {
        var g := RetiredWasExpiredOrCapped(p, e, now, m);
        assert GenOnLedger(ledger, sid, g);
      }
    }
  }

  /** The effects of superseding the current generation by a new one, before any purge. */
  function GrowEffects(e: Entry, now: Timestamp, p: SessionPolicy, newHash: TokenHash): Effects
    requires e.gens != []
  {
    Effects(Some(NewGeneration(e.currentGen + 1, newHash, now, p)),
            Some(Supersession(e.gens[|e.gens| - 1].hash, now)), [])
  }

  lemma GrownOnLedger(p: SessionPolicy, ledger: map<TokenHash, GenRow>, sid: Sid, e: Entry, now: Timestamp,
                      newHash: TokenHash)
    requires EntryOk(p, e) && OnLedger(ledger, sid, e) && newHash !in ledger
    ensures OnLedger(Entered(ledger, sid, GrowEffects(e, now, p, newHash)), sid, Grown(e, now, p, newHash))
  {
    var last := |e.gens| - 1;
    var top := e.gens[last];
    var ledger' := Entered(ledger, sid, GrowEffects(e, now, p, newHash));
    var gens := Grown(e, now, p, newHash).gens;
    assert top in e.gens && GenOnLedger(ledger, sid, top);
    assert ledger'[top.hash] == GenRow(sid, top.(supersededAt := Some(now)));
    forall i | 0 <= i < |gens| ensures GenOnLedger(ledger', sid, gens[i]) {
      if i < last {
        assert gens[i] == e.gens[i] && e.gens[i] in e.gens && GenOnLedger(ledger, sid, e.gens[i]);
        assert e.gens[i].hash != top.hash;
      }
    }
    forall m | m in e.retired ensures MarkOnLedger(ledger', sid, m) {
      assert MarkOnLedger(ledger, sid, m) && m.hash != top.hash;
    }
  }

  lemma MintOnLedger(p: SessionPolicy, ledger: map<TokenHash, GenRow>, sid: Sid, e: Entry, now: Timestamp,
                     newHash: TokenHash)
    requires EntryOk(p, e) && OnLedger(ledger, sid, e) && newHash !in ledger
    ensures var m := Mint(e, now, p, newHash);
            && LedgerSafe(ledger, sid, m.effects)
            && Entered(ledger, sid, m.effects) == Entered(ledger, sid, GrowEffects(e, now, p, newHash))
            && OnLedger(Entered(ledger, sid, m.effects), sid, m.entry)
  {
    OnLedgerHashes(ledger, sid, e);
    assert newHash !in AllHashes(e);
    GrownOk(p, e, now, newHash);
    GrownOnLedger(p, ledger, sid, e, now, newHash);
    ReapOnLedger(p, Entered(ledger, sid, GrowEffects(e, now, p, newHash)), sid, Grown(e, now, p, newHash), now);
    var top := e.gens[|e.gens| - 1];
    assert top in e.gens && GenOnLedger(ledger, sid, top);
  }

  // ---------------------------------------------------------------------------------------
  // One session's rows
  // ---------------------------------------------------------------------------------------

  /** Rows that may be purged: superseded ones, of session `sid`. */
  ghost predicate Purgeable(ledger: map<TokenHash, GenRow>, sid: Sid, gone: set<TokenHash>) {
    forall h :: h in gone ==> h in ledger && ledger[h].sid == sid && ledger[h].gen.supersededAt.Some?
  }

  lemma PurgeKeepsTop(db: Db, ledger: map<TokenHash, GenRow>, sid: Sid, gone: set<TokenHash>, x: Sid)
    requires RowsOnLedger(db, ledger) && LedgerOk(db, ledger) && Purgeable(ledger, sid, gone)
    requires x in db.sessions && SessionRowOk(db, x)
    ensures SessionRowOk(db.(gens := db.gens - gone), x)
  {
    var h :| h in db.gens && db.gens[h].sid == x && db.gens[h].gen.genNo == db.sessions[x].currentGen;
    assert LedgerRowOk(db, ledger[h], h);
    assert h !in gone;
    assert h in db.(gens := db.gens - gone).gens;
  }

  /** Purging superseded rows keeps the tables in order. */
  lemma PurgeKeepsTables(db: Db, ledger: map<TokenHash, GenRow>, sid: Sid, gone: set<TokenHash>)
    requires TablesOk(db, ledger) && Purgeable(ledger, sid, gone)
    ensures TablesOk(db.(gens := db.gens - gone), ledger)
  {
    var db' := db.(gens := db.gens - gone);
    forall x | x in db.sessions ensures SessionRowOk(db', x) {
      PurgeKeepsTop(db, ledger, sid, gone, x);
    }
    forall h | h in ledger ensures LedgerRowOk(db', ledger[h], h) {
      assert LedgerRowOk(db, ledger[h], h);
    }
  }

  lemma PurgeKeys(gens: map<TokenHash, GenRow>, ledger: map<TokenHash, GenRow>, sid: Sid, gone: set<TokenHash>,
                  x: Sid, hashes: set<TokenHash>)
    requires KeysMatch(gens, ledger, x, hashes) && Purgeable(ledger, sid, gone)
    ensures KeysMatch(gens - gone, ledger, x, if x == sid then hashes - gone else hashes)
  {
  }

  /** Superseding a session's newest generation by a new one, with the session row moved along. */
  function GrownTables(db: Db, sid: Sid, effects: Effects, currentGen: nat, idleExp: Timestamp): Db
    requires sid in db.sessions
  {
    Db(db.sessions[sid := db.sessions[sid].(currentGen := currentGen, idleExp := idleExp)],
       Entered(db.gens, sid, effects))
  }

  /** Where a grown table differs from the old one. */
  lemma EnteredPointwise(gens: map<TokenHash, GenRow>, sid: Sid, e: Entry, now: Timestamp, p: SessionPolicy,
                         newHash: TokenHash)
    requires e.gens != [] && e.gens[|e.gens| - 1].hash in gens && newHash !in gens
    ensures var top, gens' := e.gens[|e.gens| - 1].hash, Entered(gens, sid, GrowEffects(e, now, p, newHash));
            && gens'.Keys == gens.Keys + {newHash}
            && (forall h :: h in gens && h != top ==> gens'[h] == gens[h])
            && gens'[top] == gens[top].(gen := gens[top].gen.(supersededAt := Some(now)))
            && gens'[newHash] == GenRow(sid, NewGeneration(e.currentGen + 1, newHash, now, p))
  {
  }

  lemma TopOnLedger(ledger: map<TokenHash, GenRow>, sid: Sid, e: Entry)
    requires e.gens != [] && OnLedger(ledger, sid, e)
    ensures var top := e.gens[|e.gens| - 1];
            top.hash in ledger && ledger[top.hash] == GenRow(sid, top) && top.hash in AllHashes(e)
  {
    var top := e.gens[|e.gens| - 1];
    assert top in e.gens && GenOnLedger(ledger, sid, top);
  }

  lemma GrownRowsOnLedger(p: SessionPolicy, db: Db, ledger: map<TokenHash, GenRow>, sid: Sid, e: Entry,
                          now: Timestamp, newHash: TokenHash, idleExp: Timestamp)
    requires e.gens != [] && OnLedger(ledger, sid, e) && newHash !in ledger
    requires RowsMatch(db, ledger, sid, e) && RowsOnLedger(db, ledger)
    ensures var effects := GrowEffects(e, now, p, newHash);
            RowsOnLedger(GrownTables(db, sid, effects, e.currentGen + 1, idleExp), Entered(ledger, sid, effects))
  {
    TopOnLedger(ledger, sid, e);
    EnteredPointwise(ledger, sid, e, now, p, newHash);
    EnteredPointwise(db.gens, sid, e, now, p, newHash);
  }

  lemma GrownUnique(p: SessionPolicy, db: Db, ledger: map<TokenHash, GenRow>, sid: Sid, e: Entry,
                    now: Timestamp, newHash: TokenHash)
    requires e.gens != [] && OnLedger(ledger, sid, e) && newHash !in ledger
    requires LedgerOk(db, ledger) && NumbersUnique(ledger) && RowsMatch(db, ledger, sid, e)
    ensures NumbersUnique(Entered(ledger, sid, GrowEffects(e, now, p, newHash)))
  {
    var ledger' := Entered(ledger, sid, GrowEffects(e, now, p, newHash));
    TopOnLedger(ledger, sid, e);
    EnteredPointwise(ledger, sid, e, now, p, newHash);
    forall h, k | h in ledger' && k in ledger' && h != k && ledger'[h].sid == ledger'[k].sid
      ensures ledger'[h].gen.genNo != ledger'[k].gen.genNo
    {
      assert h in ledger ==> LedgerRowOk(db, ledger[h], h);
      assert k in ledger ==> LedgerRowOk(db, ledger[k], k);
    }
  }

  lemma GrowKeepsTables(p: SessionPolicy, db: Db, ledger: map<TokenHash, GenRow>, sid: Sid, e: Entry,
                        now: Timestamp, newHash: TokenHash, idleExp: Timestamp)
    requires EntryOk(p, e) && OnLedger(ledger, sid, e) && newHash !in ledger
    requires TablesOk(db, ledger) && RowsMatch(db, ledger, sid, e) && idleExp <= e.absoluteExp
    ensures var effects := GrowEffects(e, now, p, newHash);
            TablesOk(GrownTables(db, sid, effects, e.currentGen + 1, idleExp), Entered(ledger, sid, effects))
  {
    GrownRowsOnLedger(p, db, ledger, sid, e, now, newHash, idleExp);
    GrownLedgerRows(p, db, ledger, sid, e, now, newHash, idleExp);
    GrownUnique(p, db, ledger, sid, e, now, newHash);
    GrownSessionRows(p, db, ledger, sid, e, now, newHash, idleExp);
  }

  lemma GrownLedgerRows(p: SessionPolicy, db: Db, ledger: map<TokenHash, GenRow>, sid: Sid, e: Entry,
                        now: Timestamp, newHash: TokenHash, idleExp: Timestamp)
    requires EntryOk(p, e) && OnLedger(ledger, sid, e) && newHash !in ledger
    requires TablesOk(db, ledger) && RowsMatch(db, ledger, sid, e)
    ensures var effects := GrowEffects(e, now, p, newHash);
            LedgerOk(GrownTables(db, sid, effects, e.currentGen + 1, idleExp), Entered(ledger, sid, effects))
  {
    var effects := GrowEffects(e, now, p, newHash);
    var db', ledger' := GrownTables(db, sid, effects, e.currentGen + 1, idleExp), Entered(ledger, sid, effects);
    assert ledger'.Keys == ledger.Keys + {newHash} by {
      TopOnLedger(ledger, sid, e);
      EnteredPointwise(ledger, sid, e, now, p, newHash);
    }
    forall h | h in ledger' ensures LedgerRowOk(db', ledger'[h], h) {
      GrownLedgerRow(p, db, ledger, sid, e, now, newHash, idleExp, h);
    }
  }

  lemma GrownSessionRows(p: SessionPolicy, db: Db, ledger: map<TokenHash, GenRow>, sid: Sid, e: Entry,
                         now: Timestamp, newHash: TokenHash, idleExp: Timestamp)
    requires EntryOk(p, e) && OnLedger(ledger, sid, e) && newHash !in ledger
    requires TablesOk(db, ledger) && RowsMatch(db, ledger, sid, e) && idleExp <= e.absoluteExp
    ensures SessionRowsOk(GrownTables(db, sid, GrowEffects(e, now, p, newHash), e.currentGen + 1, idleExp))
  {
    forall x | x in db.sessions
      ensures SessionRowOk(GrownTables(db, sid, GrowEffects(e, now, p, newHash), e.currentGen + 1, idleExp), x)
    {
      assert SessionRowOk(db, x);
      GrownSessionRow(p, db, ledger, sid, e, now, newHash, idleExp, x);
    }
  }

  /** A row of the ledger that is not its session's newest stays in order when the session moves on. */
  lemma LedgerRowMovesOn(db: Db, sessions: map<Sid, SessionRow>, gens: map<TokenHash, GenRow>, row: GenRow,
                         h: TokenHash, sid: Sid, currentGen: nat, idleExp: Timestamp)
    requires LedgerRowOk(db, row, h) && sid in db.sessions && currentGen == db.sessions[sid].currentGen + 1
    requires row.sid == sid ==> row.gen.supersededAt.Some?
    requires sessions == db.sessions[sid := db.sessions[sid].(currentGen := currentGen, idleExp := idleExp)]
    ensures LedgerRowOk(Db(sessions, gens), row, h)
  {
  }

  lemma GrownLedgerRow(p: SessionPolicy, db: Db, ledger: map<TokenHash, GenRow>, sid: Sid, e: Entry,
                       now: Timestamp, newHash: TokenHash, idleExp: Timestamp, h: TokenHash)
    requires EntryOk(p, e) && OnLedger(ledger, sid, e) && newHash !in ledger
    requires LedgerOk(db, ledger) && NumbersUnique(ledger) && RowsMatch(db, ledger, sid, e)
    requires h in ledger || h == newHash
    ensures var effects := GrowEffects(e, now, p, newHash);
            LedgerRowOk(GrownTables(db, sid, effects, e.currentGen + 1, idleExp), Entered(ledger, sid, effects)[h], h)
  {
    var effects := GrowEffects(e, now, p, newHash);
    var db' := GrownTables(db, sid, effects, e.currentGen + 1, idleExp);
    var top := e.gens[|e.gens| - 1].hash;
    TopOnLedger(ledger, sid, e);
    EnteredPointwise(ledger, sid, e, now, p, newHash);
    if h in ledger && h != top {
      assert LedgerRowOk(db, ledger[h], h);
      assert ledger[h].sid == sid ==> ledger[h].gen.genNo != ledger[top].gen.genNo;
      LedgerRowMovesOn(db, db'.sessions, db'.gens, ledger[h], h, sid, e.currentGen + 1, idleExp);
    }
  }

  lemma TopStays(db: Db, db': Db, x: Sid, genNo: nat)
    requires HasTop(db, x, genNo)
    requires forall h :: h in db.gens && db.gens[h].sid == x ==> h in db'.gens && db'.gens[h] == db.gens[h]
    ensures HasTop(db', x, genNo)
  {
    var h :| h in db.gens && db.gens[h].sid == x && db.gens[h].gen.genNo == genNo;
    assert h in db'.gens && db'.gens[h] == db.gens[h];
  }

  lemma GrownSessionRow(p: SessionPolicy, db: Db, ledger: map<TokenHash, GenRow>, sid: Sid, e: Entry,
                        now: Timestamp, newHash: TokenHash, idleExp: Timestamp, x: Sid)
    requires EntryOk(p, e) && OnLedger(ledger, sid, e) && newHash !in ledger
    requires RowsOnLedger(db, ledger) && RowsMatch(db, ledger, sid, e) && idleExp <= e.absoluteExp
    requires x in db.sessions && SessionRowOk(db, x)
    ensures var effects := GrowEffects(e, now, p, newHash);
            SessionRowOk(GrownTables(db, sid, effects, e.currentGen + 1, idleExp), x)
  {
    var effects := GrowEffects(e, now, p, newHash);
    var db' := GrownTables(db, sid, effects, e.currentGen + 1, idleExp);
    TopOnLedger(ledger, sid, e);
    EnteredPointwise(db.gens, sid, e, now, p, newHash);
    if x == sid {
      assert newHash in db'.gens;
    } else {
      TopStays(db, db', x, db.sessions[x].currentGen);
    }
  }

  /** A map that gained one key of session `sid` and changed no row's session. */
  ghost predicate GainsKey(m: map<TokenHash, GenRow>, m': map<TokenHash, GenRow>, newHash: TokenHash, sid: Sid) {
    && newHash !in m && m'.Keys == m.Keys + {newHash}
    && m'[newHash].sid == sid
    && forall h :: h in m ==> m'[h].sid == m[h].sid
  }

  lemma EnteredGainsKey(gens: map<TokenHash, GenRow>, sid: Sid, e: Entry, now: Timestamp, p: SessionPolicy,
                        newHash: TokenHash)
    requires e.gens != [] && e.gens[|e.gens| - 1].hash in gens && newHash !in gens
    ensures GainsKey(gens, Entered(gens, sid, GrowEffects(e, now, p, newHash)), newHash, sid)
  {
  }

  lemma KeysGrow(gens: map<TokenHash, GenRow>, gens': map<TokenHash, GenRow>,
                 ledger: map<TokenHash, GenRow>, ledger': map<TokenHash, GenRow>,
                 sid: Sid, newHash: TokenHash, x: Sid, hashes: set<TokenHash>)
    requires GainsKey(gens, gens', newHash, sid) && GainsKey(ledger, ledger', newHash, sid)
    requires KeysMatch(gens, ledger, x, hashes) && newHash !in hashes
    ensures KeysMatch(gens', ledger', x, if x == sid then hashes + {newHash} else hashes)
  {
  }

  lemma GrowKeepsKeys(p: SessionPolicy, db: Db, ledger: map<TokenHash, GenRow>, sid: Sid, e: Entry,
                      now: Timestamp, newHash: TokenHash, x: Sid, other: Entry)
    requires e.gens != [] && OnLedger(ledger, sid, e) && OnLedger(ledger, x, other) && newHash !in ledger
    requires RowsOnLedger(db, ledger) && RowsMatch(db, ledger, sid, e) && RowsMatch(db, ledger, x, other)
    ensures var effects := GrowEffects(e, now, p, newHash);
            KeysMatch(Entered(db.gens, sid, effects), Entered(ledger, sid, effects), x,
                      if x == sid then AllHashes(other) + {newHash} else AllHashes(other))
  {
    TopOnLedger(ledger, sid, e);
    OnLedgerHashes(ledger, x, other);
    EnteredGainsKey(ledger, sid, e, now, p, newHash);
    EnteredGainsKey(db.gens, sid, e, now, p, newHash);
    var effects := GrowEffects(e, now, p, newHash);
    KeysGrow(db.gens, Entered(db.gens, sid, effects), ledger, Entered(ledger, sid, effects), sid, newHash, x,
             AllHashes(other));
  }

  lemma GrowKeepsRows(p: SessionPolicy, db: Db, ledger: map<TokenHash, GenRow>, sid: Sid, e: Entry,
                      now: Timestamp, newHash: TokenHash, idleExp: Timestamp)
    requires EntryOk(p, e) && OnLedger(ledger, sid, e) && newHash !in ledger
    requires RowsOnLedger(db, ledger) && RowsMatch(db, ledger, sid, e)
    ensures var effects := GrowEffects(e, now, p, newHash);
            RowsMatch(GrownTables(db, sid, effects, e.currentGen + 1, idleExp), Entered(ledger, sid, effects), sid,
                      Grown(e, now, p, newHash).(idleExp := idleExp))
  {
    OnLedgerHashes(ledger, sid, e);
    assert newHash !in AllHashes(e);
    GrownOk(p, e, now, newHash);
    assert AllHashes(Grown(e, now, p, newHash).(idleExp := idleExp)) == AllHashes(e) + {newHash};
    GrowKeepsKeys(p, db, ledger, sid, e, now, newHash, sid, e);
  }

  lemma GrowKeepsOtherRows(p: SessionPolicy, db: Db, ledger: map<TokenHash, GenRow>, sid: Sid, e: Entry,
                           now: Timestamp, newHash: TokenHash, idleExp: Timestamp, x: Sid, other: Entry)
    requires e.gens != [] && OnLedger(ledger, sid, e) && OnLedger(ledger, x, other) && newHash !in ledger && x != sid
    requires RowsOnLedger(db, ledger) && RowsMatch(db, ledger, sid, e) && RowsMatch(db, ledger, x, other)
    ensures var effects := GrowEffects(e, now, p, newHash);
            RowsMatch(GrownTables(db, sid, effects, e.currentGen + 1, idleExp), Entered(ledger, sid, effects), x, other)
  {
    GrowKeepsKeys(p, db, ledger, sid, e, now, newHash, x, other);
  }
}
