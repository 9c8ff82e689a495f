/** A token that once failed to authenticate never authenticates again, and none outlives the
    session's absolute ceiling. */
module SessionNoResurrection {
  import opened Prelude
  import opened Custody
  import opened SessionModel
  import opened SessionStore
  import opened SessionEntryFacts
  import opened SessionInvariant
  import opened SessionRun
  import opened SessionSteps
  import opened SessionRestart

  // ---------------------------------------------------------------------------------------
  // One entry
  // ---------------------------------------------------------------------------------------

  /** The session is over, or the hash names no generation still inside its window. */
  predicate Lost(p: SessionPolicy, e: Entry, hash: TokenHash, now: Timestamp) {
    !Classify(e, hash, now, p).Active?
  }

  /** Spelled out: no generation of that hash is still inside its window. */
  predicate NoLiveGen(gens: seq<Generation>, hash: TokenHash, now: Timestamp, grace: nat) {
    forall g :: g in gens && g.hash == hash ==> now >= g.ValidUntil(grace)
  }

  lemma LostExactly(p: SessionPolicy, e: Entry, hash: TokenHash, now: Timestamp)
    requires DistinctGens(e.gens)
    ensures Lost(p, e, hash, now) <==> SessionExpiry(e, now, p).Some? || NoLiveGen(e.gens, hash, now, p.grace)
  {
    if g :| g in e.gens && g.hash == hash {
      FindsGen(e.gens, g);
    }
  }

  /** Waiting does not help. */
  lemma LostStays(p: SessionPolicy, e: Entry, hash: TokenHash, now: Timestamp, later: Timestamp)
    requires DistinctGens(e.gens) && Lost(p, e, hash, now) && now <= later
    ensures Lost(p, e, hash, later)
  {
    LostExactly(p, e, hash, now);
    LostExactly(p, e, hash, later);
  }

  lemma ReapLoses(p: SessionPolicy, e: Entry, hash: TokenHash, now: Timestamp, t: Timestamp)
    requires EntryOk(p, e) && Lost(p, e, hash, t)
    ensures Lost(p, Reap(e, now, p).entry, hash, t)
  {
    ReapedGens(e, now, p);
    LostExactly(p, e, hash, t);
    LostExactly(p, Reap(e, now, p).entry, hash, t);
  }

  /** A refresh that goes through does not help a hash that was lost. */
  lemma MintLoses(p: SessionPolicy, e: Entry, hash: TokenHash, now: Timestamp, newHash: TokenHash)
    requires EntryOk(p, e) && newHash !in AllHashes(e) && hash != newHash
    requires NoLiveGen(e.gens, hash, now, p.grace)
    ensures NoLiveGen(Mint(e, now, p, newHash).entry.gens, hash, now, p.grace)
  {
    var grown := Grown(e, now, p, newHash);
    GrownOk(p, e, now, newHash);
    ReapedGens(grown, now, p);
    forall g | g in grown.gens && g.hash == hash ensures now >= g.ValidUntil(p.grace) {
      var i :| 0 <= i < |grown.gens| && grown.gens[i] == g;
      assert e.gens[i] in e.gens;
    }
  }

  /** Nor does any refresh of the session, whichever of its tokens is presented. */
  lemma RefreshLoses(p: SessionPolicy, e: Entry, hash: TokenHash, shown: TokenHash, now: Timestamp, newHash: TokenHash)
    requires EntryOk(p, e) && newHash !in AllHashes(e) && hash != newHash && Lost(p, e, hash, now)
    ensures Lost(p, EntryRefresh(e, shown, now, p, newHash).entry, hash, now)
  {
    if EntryRefresh(e, shown, now, p, newHash).result.Issued? {
      assert SessionExpiry(e, now, p).None?;
      LostExactly(p, e, hash, now);
      if Coalesces(e, now, p) {
        LostExactly(p, Slide(e, now, p), hash, now);
      } else {
        MintFacts(p, e, now, newHash);
        MintLoses(p, e, hash, now, newHash);
        LostExactly(p, Slide(Mint(e, now, p, newHash).entry, now, p), hash, now);
      }
    }
  }

  // ---------------------------------------------------------------------------------------
  // The whole map
  // ---------------------------------------------------------------------------------------

  /** No custody already reported dead is reported well again while that kills sessions. */
  predicate Reviving(p: SessionPolicy, y: System, op: Op) {
    op.SetCustody? && !op.status.Dead? && op.custody in y.revoked && p.onUpstreamRevoked.Kill?
  }

  ghost predicate SteadyRun(p: SessionPolicy, y: System, ops: seq<Op>)
    decreases |ops|
  {
    ops == [] ||
    (Valid(y, ops[0]) && !ops[0].Restart? && !Reviving(p, y, ops[0]) && SteadyRun(p, Step(p, y, ops[0]), ops[1..]))
  }

  /** A minted hash that fails to authenticate now. */
  predicate Gone(p: SessionPolicy, y: System, hash: TokenHash) {
    hash in y.ledger && !Authenticates(p, y.store, hash, y.clock)
  }

  /** The hash of an entry that was lost leads to the same entry, changed but still lost, or nowhere. */
  lemma GoneIsLost(p: SessionPolicy, y: System, hash: TokenHash, now: Timestamp)
    requires Inv(p, y) && Gone(p, y, hash) && y.clock <= now
    ensures hash in y.store.index ==>
              var sid := y.store.index[hash];
              && sid in y.store.sessions && EntryOk(p, y.store.sessions[sid])
              && Lost(p, y.store.sessions[sid], hash, now)
    ensures !Authenticates(p, y.store, hash, now)
  {
    if hash in y.store.index {
      Held(p, y, Replay(y.log), hash);
      LostStays(p, y.store.sessions[y.store.index[hash]], hash, y.clock, now);
    }
  }

  lemma RefreshKeepsGone(p: SessionPolicy, y: System, hash: TokenHash, shown: TokenHash, now: Timestamp,
                         newHash: TokenHash)
    requires Inv(p, y) && Gone(p, y, hash) && y.clock <= now && newHash !in y.ledger
    ensures Gone(p, AfterRefresh(p, y, shown, now, newHash), hash)
  {
    GoneIsLost(p, y, hash, now);
    if Finds(y, shown) {
      Held(p, y, Replay(y.log), shown);
      var sid := y.store.index[shown];
      var e := y.store.sessions[sid];
      FreshIsUnclaimed(p, y, sid, newHash);
      if hash in y.store.index && y.store.index[hash] == sid {
        RefreshLoses(p, e, hash, shown, now, newHash);
      }
      if EntryRefresh(e, shown, now, p, newHash).result.Issued? {
        RefreshedElsewhere(p, y, hash, shown, now, newHash);
      }
    }
  }

  /** A fresh hash belongs to no entry. */
  lemma FreshIsUnclaimed(p: SessionPolicy, y: System, sid: Sid, newHash: TokenHash)
    requires Inv(p, y) && newHash !in y.ledger && sid in y.store.sessions
    ensures newHash !in AllHashes(y.store.sessions[sid]) && newHash !in y.store.index
  {
    HasRow(p, y, Replay(y.log), sid);
    OnLedgerHashes(y.ledger, sid, y.store.sessions[sid]);
    InUse(p, y, Replay(y.log));
  }

  /** A refresh changes one entry, and of the index only the new hash and purged ones. */
  lemma RefreshedElsewhere(p: SessionPolicy, y: System, hash: TokenHash, shown: TokenHash, now: Timestamp,
                           newHash: TokenHash)
    requires Finds(y, shown) && hash != newHash && hash in y.ledger
    ensures var sid, y' := y.store.index[shown], AfterRefresh(p, y, shown, now, newHash);
            && hash in y'.ledger && y'.clock == now
            && (hash in y'.store.index ==> hash in y.store.index && y'.store.index[hash] == y.store.index[hash])
            && (forall x :: x in y.store.sessions && x != sid ==>
                  x in y'.store.sessions && y'.store.sessions[x] == y.store.sessions[x])
            && sid in y'.store.sessions
            && y'.store.sessions[sid] == EntryRefresh(y.store.sessions[sid], shown, now, p, newHash).entry
  {
    MintKeepsCurrent(y.store.sessions[y.store.index[shown]], now, p, newHash);
  }

  lemma ReapKeepsGone(p: SessionPolicy, y: System, hash: TokenHash, sid: Sid, now: Timestamp)
    requires Inv(p, y) && Gone(p, y, hash) && y.clock <= now
    ensures Gone(p, AfterReap(p, y, sid, now), hash)
  {
    GoneIsLost(p, y, hash, now);
    if hash in y.store.index && y.store.index[hash] == sid {
      ReapLoses(p, y.store.sessions[sid], hash, now, now);
    }
  }

  lemma StatusLoses(p: SessionPolicy, e: Entry, custody: CustodyId, status: CustodyStatus, hash: TokenHash,
                    now: Timestamp)
    requires DistinctGens(e.gens) && Lost(p, e, hash, now)
    requires e.custodyStatus.Dead? && p.onUpstreamRevoked.Kill? && e.custody == custody ==> status.Dead?
    ensures Lost(p, WithStatus(e, custody, status), hash, now)
  {
    LostExactly(p, e, hash, now);
    LostExactly(p, WithStatus(e, custody, status), hash, now);
  }

  /** An entry that says its custody is dead has it on record. */
  lemma DeadOnRecord(p: SessionPolicy, y: System, sid: Sid)
    requires Inv(p, y) && sid in y.store.sessions
    ensures y.store.sessions[sid].custodyStatus.Dead? ==> y.store.sessions[sid].custody in y.revoked
  {
    HasRow(p, y, Replay(y.log), sid);
  }

  lemma SetCustodyKeepsGone(p: SessionPolicy, y: System, hash: TokenHash, custody: CustodyId, status: CustodyStatus)
    requires Inv(p, y) && Gone(p, y, hash) && !Reviving(p, y, SetCustody(custody, status))
    ensures Gone(p, AfterSetCustody(y, custody, status), hash)
  {
    GoneIsLost(p, y, hash, y.clock);
    if hash in y.store.index {
      var sid := y.store.index[hash];
      DeadOnRecord(p, y, sid);
      StatusLoses(p, y.store.sessions[sid], custody, status, hash, y.clock);
    }
  }

  lemma StepKeepsGone(p: SessionPolicy, y: System, hash: TokenHash, op: Op)
    requires Inv(p, y) && Gone(p, y, hash) && Valid(y, op) && !op.Restart? && !Reviving(p, y, op)
    ensures Gone(p, Step(p, y, op), hash)
  {
    match op
    case Create(sid, custody, sub, now, newHash) => GoneIsLost(p, y, hash, now); InUse(p, y, Replay(y.log));
    case Refresh(shown, now, newHash) => RefreshKeepsGone(p, y, hash, shown, now, newHash);
    case Tombstone(sid, now) => GoneIsLost(p, y, hash, now);
    case SetCustody(custody, status) => SetCustodyKeepsGone(p, y, hash, custody, status);
    case ReapOne(sid, now) => ReapKeepsGone(p, y, hash, sid, now);
    case CollectOne(sid, now) => GoneIsLost(p, y, hash, now);
  }

  lemma {:induction false} RunKeepsGone(p: SessionPolicy, y: System, hash: TokenHash, ops: seq<Op>)
    requires Inv(p, y) && Gone(p, y, hash) && SteadyRun(p, y, ops)
    ensures Gone(p, Run(p, y, ops), hash) && Inv(p, Run(p, y, ops))
    decreases |ops|
  {
    if ops != [] {
      StepKeepsGone(p, y, hash, ops[0]);
      StepKeeps(p, y, ops[0]);
      RunKeepsGone(p, Step(p, y, ops[0]), hash, ops[1..]);
    }
  }

  /** No resurrection: a minted token that fails to authenticate at some instant fails at every
      later one, whatever is created, refreshed, logged out, swept or reported in between. */
  lemma NoResurrection(p: SessionPolicy, y: System, hash: TokenHash, now: Timestamp, ops: seq<Op>, later: Timestamp)
    requires Reachable(p, y) && hash in y.ledger && y.clock <= now
    requires !Authenticates(p, y.store, hash, now)
    requires SteadyRun(p, y.(clock := now), ops) && later >= Run(p, y.(clock := now), ops).clock
    ensures !Authenticates(p, Run(p, y.(clock := now), ops).store, hash, later)
  {
    ReachableInv(p, y);
    WaitKeeps(p, y, Replay(y.log), now);
    RunKeepsGone(p, y.(clock := now), hash, ops);
    GoneIsLost(p, Run(p, y.(clock := now), ops), hash, later);
  }

  // ---------------------------------------------------------------------------------------
  // The absolute ceiling
  // ---------------------------------------------------------------------------------------

  /** Every session inserted was given its ceiling at birth. */
  predicate CeilingSet(p: SessionPolicy, c: Command) {
    c.InsertSession? ==> c.row.absoluteExp == c.row.createdAt + p.absoluteTtl
  }

  ghost predicate CeilingsSet(p: SessionPolicy, log: seq<Command>) {
    forall i :: 0 <= i < |log| ==> CeilingSet(p, log[i])
  }

  lemma {:induction false} RowsHaveCeilings(p: SessionPolicy, log: seq<Command>)
    requires CeilingsSet(p, log)
    ensures forall sid :: sid in Replay(log).sessions ==>
              Replay(log).sessions[sid].absoluteExp == Replay(log).sessions[sid].createdAt + p.absoluteTtl
  {
    if log != [] {
      RowsHaveCeilings(p, log[..|log| - 1]);
      assert CeilingSet(p, log[|log| - 1]);
    }
  }

  lemma StepSetsCeilings(p: SessionPolicy, y: System, op: Op)
    requires CeilingsSet(p, y.log)
    ensures CeilingsSet(p, Step(p, y, op).log)
  {
  }

  lemma {:induction false} RunSetsCeilings(p: SessionPolicy, y: System, ops: seq<Op>)
    requires CeilingsSet(p, y.log)
    ensures CeilingsSet(p, Run(p, y, ops).log)
    decreases |ops|
  {
    if ops != [] {
      StepSetsCeilings(p, y, ops[0]);
      RunSetsCeilings(p, Step(p, y, ops[0]), ops[1..]);
    }
  }

  /** No token authenticates once its session's creation is an absolute TTL ago, restarts and
      refreshes notwithstanding. */
  lemma CeilingHolds(p: SessionPolicy, y: System, hash: TokenHash, now: Timestamp)
    requires Reachable(p, y) && Authenticates(p, y.store, hash, now)
    ensures hash in y.ledger && y.ledger[hash].sid in Replay(y.log).sessions
    ensures now < Replay(y.log).sessions[y.ledger[hash].sid].createdAt + p.absoluteTtl
  {
    var start, ops :| ValidRun(p, Initial(start), ops) && y == Run(p, Initial(start), ops);
    ReachableInv(p, y);
    Held(p, y, Replay(y.log), hash);
    RunSetsCeilings(p, Initial(start), ops);
    RowsHaveCeilings(p, y.log);
  }

  // ---------------------------------------------------------------------------------------
  // Logout
  // ---------------------------------------------------------------------------------------

  /** The session's row says it was logged out. */
  ghost predicate LoggedOutRow(db: Db, sid: Sid) {
    sid in db.sessions && db.sessions[sid].status.Tombstoned?
  }

  predicate Inserts(c: Command, sid: Sid) {
    c.InsertSession? && c.sid == sid
  }

  lemma {:induction false} RowStaysLoggedOut(db: Db, commands: seq<Command>, sid: Sid)
    requires LoggedOutRow(db, sid) && forall c :: c in commands ==> !Inserts(c, sid)
    ensures LoggedOutRow(ExecuteAll(db, commands), sid)
    decreases |commands|
  {
    if commands != [] {
      assert commands[0] in commands && !Inserts(commands[0], sid);
      assert forall c :: c in commands[1..] ==> c in commands;
      RowStaysLoggedOut(Execute(db, commands[0]), commands[1..], sid);
    }
  }

  /** Index effects insert no session. */
  lemma EffectsInsertNone(sid: Sid, effects: Effects, x: Sid)
    ensures forall c :: c in EffectCommands(sid, effects) ==> !Inserts(c, x)
  {
  }

  lemma RefreshAppends(p: SessionPolicy, y: System, shown: TokenHash, now: Timestamp, newHash: TokenHash, x: Sid)
      returns (more: seq<Command>)
    ensures AfterRefresh(p, y, shown, now, newHash).log == y.log + more && forall c :: c in more ==> !Inserts(c, x)
  {
    more := [];
    if Finds(y, shown) {
      var sid := y.store.index[shown];
      var r := EntryRefresh(y.store.sessions[sid], shown, now, p, newHash);
      EffectsInsertNone(sid, r.effects, x);
      if r.result.Issued? {
        more := EffectCommands(sid, r.effects) + [UpdateSessionProgress(sid, r.entry.currentGen, r.entry.idleExp)];
      }
    }
  }

  lemma ReapAppends(p: SessionPolicy, y: System, sid: Sid, now: Timestamp, x: Sid) returns (more: seq<Command>)
    ensures AfterReap(p, y, sid, now).log == y.log + more && forall c :: c in more ==> !Inserts(c, x)
  {
    more := [];
    if sid in y.store.sessions && !Collectible(y.store.sessions[sid], now, p) {
      var effects := Effects(None, None, Reap(y.store.sessions[sid], now, p).purged);
      EffectsInsertNone(sid, effects, x);
      more := EffectCommands(sid, effects);
    }
  }

  /** What a step adds to the log: the row of no session that already exists. */
  lemma StepAppends(p: SessionPolicy, y: System, op: Op, x: Sid) returns (more: seq<Command>)
    requires Valid(y, op) && x in y.sids
    ensures Step(p, y, op).log == y.log + more && forall c :: c in more ==> !Inserts(c, x)
  {
    match op
    case Create(sid, custody, sub, now, newHash) =>
      var e := NewEntry(sid, custody, sub, now, p, newHash);
      more := [InsertSession(sid, NewRow(e, now)), InsertCommand(sid, e.gens[0])];
    case Refresh(shown, now, newHash) => more := RefreshAppends(p, y, shown, now, newHash, x);
    case Tombstone(sid, now) =>
      more := if sid in y.store.sessions && y.store.sessions[sid].status.Alive?
              then [TombstoneSession(sid, now)] else [];
    case ReapOne(sid, now) => more := ReapAppends(p, y, sid, now, x);
    case _ => more := [];
  }

  lemma EnteredKeepsOwner(ledger: map<TokenHash, GenRow>, sid: Sid, effects: Effects, hash: TokenHash)
    requires hash in ledger && (effects.added.Some? ==> effects.added.value.hash != hash)
    ensures hash in Entered(ledger, sid, effects) && Entered(ledger, sid, effects)[hash].sid == ledger[hash].sid
  {
  }

  lemma RefreshAdds(e: Entry, shown: TokenHash, now: Timestamp, p: SessionPolicy, newHash: TokenHash)
    requires e.gens != []
    ensures var effects := EntryRefresh(e, shown, now, p, newHash).effects;
            effects.added.Some? ==> effects.added.value.hash == newHash
  {
  }

  lemma RefreshKeepsOwner(p: SessionPolicy, y: System, shown: TokenHash, now: Timestamp, newHash: TokenHash,
                          hash: TokenHash)
    requires hash in y.ledger && newHash !in y.ledger
    ensures var ledger := AfterRefresh(p, y, shown, now, newHash).ledger;
            hash in ledger && ledger[hash].sid == y.ledger[hash].sid
  {
    if Finds(y, shown) {
      var sid := y.store.index[shown];
      RefreshAdds(y.store.sessions[sid], shown, now, p, newHash);
      EnteredKeepsOwner(y.ledger, sid, EntryRefresh(y.store.sessions[sid], shown, now, p, newHash).effects, hash);
    }
  }

  /** A minted hash stays its session's. */
  lemma StepKeepsOwner(p: SessionPolicy, y: System, op: Op, hash: TokenHash)
    requires Valid(y, op) && hash in y.ledger
    ensures hash in Step(p, y, op).ledger && Step(p, y, op).ledger[hash].sid == y.ledger[hash].sid
  {
    if op.Refresh? {
      RefreshKeepsOwner(p, y, op.hash, op.now, op.newHash, hash);
    }
  }

  lemma {:induction false} LogoutLasts(p: SessionPolicy, y: System, sid: Sid, hash: TokenHash, ops: seq<Op>)
    requires Inv(p, y) && ValidRun(p, y, ops) && LoggedOutRow(Replay(y.log), sid)
    requires hash in y.ledger && y.ledger[hash].sid == sid
    ensures var y' := Run(p, y, ops);
            Inv(p, y') && LoggedOutRow(Replay(y'.log), sid) && hash in y'.ledger && y'.ledger[hash].sid == sid
    decreases |ops|
  {
    if ops != [] {
      var more := StepAppends(p, y, ops[0], sid);
      ReplayAppends(y.log, more);
      RowStaysLoggedOut(Replay(y.log), more, sid);
      StepKeeps(p, y, ops[0]);
      StepKeepsOwner(p, y, ops[0], hash);
      LogoutLasts(p, Step(p, y, ops[0]), sid, hash, ops[1..]);
    }
  }

  /** Logout is forever: once a session is tombstoned, no token ever minted for it authenticates
      again, across any operations and any restarts. */
  lemma LogoutIsForever(p: SessionPolicy, y: System, sid: Sid, hash: TokenHash, ops: seq<Op>, now: Timestamp)
    requires Inv(p, y) && ValidRun(p, y, ops)
    requires sid in y.store.sessions && y.store.sessions[sid].status.Tombstoned?
    requires hash in y.ledger && y.ledger[hash].sid == sid
    ensures !Authenticates(p, Run(p, y, ops).store, hash, now)
  {
    var y' := Run(p, y, ops);
    HasRow(p, y, Replay(y.log), sid);
    LogoutLasts(p, y, sid, hash, ops);
    if hash in y'.store.index {
      Held(p, y', Replay(y'.log), hash);
    }
  }

  // ---------------------------------------------------------------------------------------
  // Expiry
  // ---------------------------------------------------------------------------------------

  /** Inside its window by the record of everything ever minted. */
  predicate InWindow(p: SessionPolicy, ledger: map<TokenHash, GenRow>, hash: TokenHash, now: Timestamp) {
    hash in ledger && now < ledger[hash].gen.ValidUntil(p.grace)
  }

  /** Whatever authenticates is inside its window. */
  lemma ActiveIsInWindow(p: SessionPolicy, y: System, hash: TokenHash, now: Timestamp)
    requires Inv(p, y) && Authenticates(p, y.store, hash, now)
    ensures InWindow(p, y.ledger, hash, now)
  {
    Held(p, y, Replay(y.log), hash);
    var sid := y.store.index[hash];
    var g := FindGen(y.store.sessions[sid].gens, hash).value;
    assert GenOnLedger(y.ledger, sid, g);
  }

  /** No window of `ledger` is longer in `ledger'`. */
  ghost predicate NoWider(p: SessionPolicy, ledger: map<TokenHash, GenRow>, ledger': map<TokenHash, GenRow>) {
    forall h :: h in ledger ==>
      h in ledger' && ledger'[h].gen.ValidUntil(p.grace) <= ledger[h].gen.ValidUntil(p.grace)
  }

  lemma MintNarrows(p: SessionPolicy, ledger: map<TokenHash, GenRow>, sid: Sid, e: Entry, now: Timestamp,
                    newHash: TokenHash)
    requires EntryOk(p, e) && OnLedger(ledger, sid, e) && newHash !in ledger
    ensures NoWider(p, ledger, Entered(ledger, sid, Mint(e, now, p, newHash).effects))
  {
    MintOnLedger(p, ledger, sid, e, now, newHash);
    TopOnLedger(ledger, sid, e);
    EnteredPointwise(ledger, sid, e, now, p, newHash);
  }

  lemma RefreshNarrows(p: SessionPolicy, y: System, shown: TokenHash, now: Timestamp, newHash: TokenHash)
    requires Inv(p, y) && newHash !in y.ledger
    ensures NoWider(p, y.ledger, AfterRefresh(p, y, shown, now, newHash).ledger)
  {
    if Finds(y, shown) {
      var sid := y.store.index[shown];
      var e := y.store.sessions[sid];
      Held(p, y, Replay(y.log), shown);
      MintNarrows(p, y.ledger, sid, e, now, newHash);
      RefreshEnters(p, y, shown, now, newHash);
    }
  }

  /** A refresh mints or leaves the ledger alone. */
  lemma RefreshEnters(p: SessionPolicy, y: System, shown: TokenHash, now: Timestamp, newHash: TokenHash)
    requires Finds(y, shown)
    ensures var sid, ledger := y.store.index[shown], AfterRefresh(p, y, shown, now, newHash).ledger;
            || ledger == y.ledger
            || ledger == Entered(y.ledger, sid, Mint(y.store.sessions[sid], now, p, newHash).effects)
  {
  }

  lemma StepNarrows(p: SessionPolicy, y: System, op: Op)
    requires Inv(p, y) && Valid(y, op)
    ensures NoWider(p, y.ledger, Step(p, y, op).ledger)
  {
    if op.Refresh? {
      RefreshNarrows(p, y, op.hash, op.now, op.newHash);
    }
  }

  lemma {:induction false} RunNarrows(p: SessionPolicy, y: System, ops: seq<Op>)
    requires Inv(p, y) && ValidRun(p, y, ops)
    ensures Inv(p, Run(p, y, ops)) && NoWider(p, y.ledger, Run(p, y, ops).ledger)
    decreases |ops|
  {
    if ops != [] {
      StepKeeps(p, y, ops[0]);
      StepNarrows(p, y, ops[0]);
      RunNarrows(p, Step(p, y, ops[0]), ops[1..]);
    }
  }

  /** Expiry is forever: a token past the window its generation has on record authenticates at no
      later instant, across any operations and any restarts, evictions and revivals included. */
  lemma ExpiryIsForever(p: SessionPolicy, y: System, hash: TokenHash, ops: seq<Op>, now: Timestamp)
    requires Inv(p, y) && ValidRun(p, y, ops)
    requires hash in y.ledger && now >= y.ledger[hash].gen.ValidUntil(p.grace)
    ensures !Authenticates(p, Run(p, y, ops).store, hash, now)
  {
    RunNarrows(p, y, ops);
    if Authenticates(p, Run(p, y, ops).store, hash, now) {
      ActiveIsInWindow(p, Run(p, y, ops), hash, now);
    }
  }
}
