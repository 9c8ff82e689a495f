/** Reaping, the cap, retirement and collection are unobservable: under one bound on the windows, a
    map that was never restarted answers as one that keeps every generation forever. */
module SessionNeverForget {
  import opened Prelude
  import opened Custody
  import opened SessionModel
  import opened SessionStore
  import opened SessionEntryFacts
  import opened SessionInvariant
  import opened SessionRun
  import opened SessionSteps
  import opened SessionRestart
  import opened SessionNoResurrection
  import opened SessionIdeal

  // ---------------------------------------------------------------------------------------
  // The relation
  // ---------------------------------------------------------------------------------------

  predicate Twin(p: SessionPolicy, clock: Timestamp, sessions: map<Sid, Entry>, ideals: map<Sid, Entry>, sid: Sid)
    requires sid in sessions
  {
    sid in ideals && Tidy(p, clock, sessions[sid]) && Mirrors(p, clock, sessions[sid], ideals[sid])
  }

  ghost predicate AllTwins(p: SessionPolicy, clock: Timestamp, sessions: map<Sid, Entry>, ideals: map<Sid, Entry>) {
    forall sid {:trigger Twin(p, clock, sessions, ideals, sid)} :: sid in sessions ==>
      Twin(p, clock, sessions, ideals, sid)
  }

  /** No operation will bring the session back. */
  predicate OverForGood(p: SessionPolicy, clock: Timestamp, revoked: set<CustodyId>, f: Entry) {
    || f.status.Tombstoned? || clock >= f.idleExp || clock >= f.absoluteExp
    || (f.custodyStatus.Dead? && f.custody in revoked && p.onUpstreamRevoked.Kill?)
  }

  /** What the real map collected is over. */
  ghost predicate RestIsOver(p: SessionPolicy, y: System, z: Store) {
    forall sid {:trigger OverForGood(p, y.clock, y.revoked, z.sessions[sid])} ::
      sid in z.sessions && sid !in y.store.sessions ==> OverForGood(p, y.clock, y.revoked, z.sessions[sid])
  }

  predicate Owns(ledger: map<TokenHash, GenRow>, sid: Sid, f: Entry) {
    forall g :: g in f.gens ==> g.hash in ledger && ledger[g.hash].sid == sid
  }

  ghost predicate AllOwn(ledger: map<TokenHash, GenRow>, z: Store) {
    forall sid {:trigger Owns(ledger, sid, z.sessions[sid])} :: sid in z.sessions ==> Owns(ledger, sid, z.sessions[sid])
  }

  /** The ideal index holds every hash ever minted. */
  ghost predicate IndexesAll(ledger: map<TokenHash, GenRow>, z: Store) {
    && z.index.Keys == ledger.Keys
    && forall h :: h in ledger ==> z.index[h] == ledger[h].sid && ledger[h].sid in z.sessions
  }

  ghost predicate Mirrored(p: SessionPolicy, y: System, z: Store) {
    && AllTwins(p, y.clock, y.store.sessions, z.sessions) && RestIsOver(p, y, z)
    && AllOwn(y.ledger, z) && IndexesAll(y.ledger, z)
    && z.sessions.Keys <= y.sids && y.capped == {}
  }

  // ---------------------------------------------------------------------------------------
  // Mirrored maps answer alike
  // ---------------------------------------------------------------------------------------

  /** A hash an entry does not claim does nothing there. */
  lemma UnclaimedIsUseless(p: SessionPolicy, e: Entry, hash: TokenHash, now: Timestamp)
    requires hash !in AllHashes(e)
    ensures !Refreshable(Classify(e, hash, now, p))
  {
    FindsNoGen(e.gens, hash);
  }

  lemma OverIsUseless(p: SessionPolicy, clock: Timestamp, revoked: set<CustodyId>, f: Entry, hash: TokenHash,
                      now: Timestamp)
    requires OverForGood(p, clock, revoked, f) && clock <= now
    ensures !Refreshable(Classify(f, hash, now, p))
  {
  }

  /** A hash the real map does not index does nothing in the ideal one. */
  lemma UnheldAgree(p: SessionPolicy, y: System, z: Store, hash: TokenHash, now: Timestamp)
    requires Inv(p, y) && Mirrored(p, y, z) && y.clock <= now && hash !in y.store.index && hash in z.index
    ensures !Refreshable(Resolve(p, z, hash, now))
  {
    var sid := z.index[hash];
    if sid in y.store.sessions {
      HasRow(p, y, Replay(y.log), sid);
      assert Twin(p, y.clock, y.store.sessions, z.sessions, sid);
      UnclaimedIsUseless(p, y.store.sessions[sid], hash, now);
      MirrorsAgree(p, y.clock, y.store.sessions[sid], z.sessions[sid], hash, now);
    } else {
      OverIsUseless(p, y.clock, y.revoked, z.sessions[sid], hash, now);
    }
  }

  lemma MirroredAgree(p: SessionPolicy, y: System, z: Store, hash: TokenHash, now: Timestamp)
    requires Inv(p, y) && Mirrored(p, y, z) && y.clock <= now
    ensures var v, w := Resolve(p, y.store, hash, now), Resolve(p, z, hash, now);
            Refreshable(v) || Refreshable(w) ==> v == w
  {
    if hash in y.store.index {
      var sid := y.store.index[hash];
      Held(p, y, Replay(y.log), hash);
      assert Twin(p, y.clock, y.store.sessions, z.sessions, sid);
      MirrorsAgree(p, y.clock, y.store.sessions[sid], z.sessions[sid], hash, now);
    } else if hash in z.index {
      UnheldAgree(p, y, z, hash, now);
    }
  }

  // ---------------------------------------------------------------------------------------
  // Steps
  // ---------------------------------------------------------------------------------------

  /** Twins that nothing touched. */
  lemma TwinWaits(p: SessionPolicy, clock: Timestamp, later: Timestamp, sessions: map<Sid, Entry>,
                  ideals: map<Sid, Entry>, sessions': map<Sid, Entry>, ideals': map<Sid, Entry>, sid: Sid)
    requires AllTwins(p, clock, sessions, ideals) && clock <= later && sid in sessions && sid in sessions'
    requires sessions'[sid] == sessions[sid] && (sid in ideals ==> sid in ideals' && ideals'[sid] == ideals[sid])
    ensures Twin(p, later, sessions', ideals', sid)
  {
    assert Twin(p, clock, sessions, ideals, sid);
    MirrorsLater(p, clock, later, sessions[sid], ideals[sid]);
  }

  /** One pair changed, the others waited. */
  lemma TwinsChange(p: SessionPolicy, clock: Timestamp, later: Timestamp, sessions: map<Sid, Entry>,
                    ideals: map<Sid, Entry>, sid: Sid, e: Entry, f: Entry)
    requires AllTwins(p, clock, sessions, ideals) && clock <= later
    requires Tidy(p, later, e) && Mirrors(p, later, e, f)
    ensures AllTwins(p, later, sessions[sid := e], ideals[sid := f])
  {
    var sessions', ideals' := sessions[sid := e], ideals[sid := f];
    forall x | x in sessions' ensures Twin(p, later, sessions', ideals', x) {
      if x != sid {
        TwinWaits(p, clock, later, sessions, ideals, sessions', ideals', x);
      }
    }
  }

  lemma OverStays(p: SessionPolicy, y: System, z: Store, y': System, z': Store)
    requires RestIsOver(p, y, z) && Later(y, y') && y.store.sessions.Keys <= y'.store.sessions.Keys
    requires forall sid :: sid in z'.sessions && sid !in y'.store.sessions ==>
               sid in z.sessions && z'.sessions[sid] == z.sessions[sid]
    ensures RestIsOver(p, y', z')
  {
    forall sid | sid in z'.sessions && sid !in y'.store.sessions
      ensures OverForGood(p, y'.clock, y'.revoked, z'.sessions[sid]) {
      assert OverForGood(p, y.clock, y.revoked, z.sessions[sid]);
    }
  }

  lemma WaitMirrors(p: SessionPolicy, y: System, z: Store, now: Timestamp)
    requires Mirrored(p, y, z) && y.clock <= now
    ensures Mirrored(p, y.(clock := now), z)
  {
    forall sid | sid in y.store.sessions ensures Twin(p, now, y.store.sessions, z.sessions, sid) {
      TwinWaits(p, y.clock, now, y.store.sessions, z.sessions, y.store.sessions, z.sessions, sid);
    }
    OverStays(p, y, z, y.(clock := now), z);
  }

  lemma NewEntryMirrors(p: SessionPolicy, sid: Sid, custody: CustodyId, sub: string, now: Timestamp, newHash: TokenHash)
    ensures var e := NewEntry(sid, custody, sub, now, p, newHash); Tidy(p, now, e) && Mirrors(p, now, e, e)
  {
  }

  lemma CreateOwns(p: SessionPolicy, y: System, z: Store, sid: Sid, e: Entry, g: Generation)
    requires AllOwn(y.ledger, z) && IndexesAll(y.ledger, z) && sid !in z.sessions && g.hash !in y.ledger
             && e.gens == [g]
    ensures var ledger', z' := y.ledger[g.hash := GenRow(sid, g)], Store(z.sessions[sid := e], z.index[g.hash := sid]);
            AllOwn(ledger', z') && IndexesAll(ledger', z')
  {
    var ledger', z' := y.ledger[g.hash := GenRow(sid, g)], Store(z.sessions[sid := e], z.index[g.hash := sid]);
    forall x | x in z'.sessions ensures Owns(ledger', x, z'.sessions[x]) {
      if x != sid {
        assert Owns(y.ledger, x, z.sessions[x]);
      }
    }
  }

  lemma CreateMirrors(p: SessionPolicy, y: System, z: Store, sid: Sid, custody: CustodyId, sub: string,
                      now: Timestamp, newHash: TokenHash)
    requires Mirrored(p, y, z) && y.clock <= now && sid !in y.sids && newHash !in y.ledger
    ensures Mirrored(p, Created(p, y, sid, custody, sub, now, newHash),
                     IdealStep(p, z, Create(sid, custody, sub, now, newHash)))
  {
    var e := NewEntry(sid, custody, sub, now, p, newHash);
    var y' := Created(p, y, sid, custody, sub, now, newHash);
    var z' := IdealStep(p, z, Create(sid, custody, sub, now, newHash));
    NewEntryMirrors(p, sid, custody, sub, now, newHash);
    TwinsChange(p, y.clock, now, y.store.sessions, z.sessions, sid, e, e);
    CreateOwns(p, y, z, sid, e, e.gens[0]);
    OverStays(p, y, z, y', z');
  }

  // ---------------------------------------------------------------------------------------
  // Refresh
  // ---------------------------------------------------------------------------------------

  /** A refused refresh changes nothing in the ideal map. */
  lemma IdealRefuses(p: SessionPolicy, z: Store, hash: TokenHash, now: Timestamp, newHash: TokenHash)
    requires !Refreshable(Resolve(p, z, hash, now))
    ensures IdealRefresh(p, z, hash, now, newHash) == z
  {
    if hash in z.index && z.index[hash] in z.sessions && z.sessions[z.index[hash]].gens != [] {
      assert z.sessions[z.index[hash] := z.sessions[z.index[hash]]] == z.sessions;
    }
  }

  /** A refused one changes nothing in the real map but the clock. */
  lemma RealRefuses(p: SessionPolicy, y: System, hash: TokenHash, now: Timestamp, newHash: TokenHash)
    requires !Refreshable(Resolve(p, y.store, hash, now))
    ensures AfterRefresh(p, y, hash, now, newHash) == y.(clock := now)
  {
  }

  /** Who owns what once a generation is superseded. */
  lemma GrownOwns(p: SessionPolicy, ledger: map<TokenHash, GenRow>, ledger': map<TokenHash, GenRow>, z: Store,
                  sid: Sid, f: Entry, now: Timestamp, newHash: TokenHash)
    requires AllOwn(ledger, z) && IndexesAll(ledger, z) && sid in z.sessions && newHash !in ledger
    requires Ladder(z.sessions[sid].gens, z.sessions[sid].currentGen) && DistinctGens(z.sessions[sid].gens)
    requires f.gens == Grown(z.sessions[sid], now, p, newHash).gens
    requires GainsKey(ledger, ledger', newHash, sid)
    ensures var z' := Store(z.sessions[sid := f], z.index[newHash := sid]);
            AllOwn(ledger', z') && IndexesAll(ledger', z')
  {
    var z' := Store(z.sessions[sid := f], z.index[newHash := sid]);
    forall x | x in z'.sessions ensures Owns(ledger', x, z'.sessions[x]) {
      assert Owns(ledger, x, z.sessions[x]);
      if x == sid {
        forall g | g in f.gens ensures g.hash in ledger' && ledger'[g.hash].sid == sid {
          InGrown(z.sessions[sid], now, p, newHash, g);
        }
      }
    }
  }

  lemma SlidOwns(ledger: map<TokenHash, GenRow>, z: Store, sid: Sid, f: Entry)
    requires AllOwn(ledger, z) && IndexesAll(ledger, z) && sid in z.sessions && f.gens == z.sessions[sid].gens
    ensures var z' := Store(z.sessions[sid := f], z.index); AllOwn(ledger, z') && IndexesAll(ledger, z')
  {
    var z' := Store(z.sessions[sid := f], z.index);
    forall x | x in z'.sessions ensures Owns(ledger, x, z'.sessions[x]) {
      assert Owns(ledger, x, z.sessions[x]);
    }
  }

  lemma RefreshReplaces(p: SessionPolicy, y: System, hash: TokenHash, now: Timestamp, newHash: TokenHash)
    requires y.clock <= now && Finds(y, hash)
    requires Refreshable(Classify(y.store.sessions[y.store.index[hash]], hash, now, p))
    ensures var sid, y' := y.store.index[hash], AfterRefresh(p, y, hash, now, newHash);
            var r := EntryRefresh(y.store.sessions[sid], hash, now, p, newHash);
            && Replaces(y, y', sid, r.entry, now) && y'.capped == y.capped + HashSet(r.capped)
            && y'.ledger == Entered(y.ledger, sid, r.effects)
  {
  }

  lemma MintGainsKey(p: SessionPolicy, ledger: map<TokenHash, GenRow>, sid: Sid, e: Entry, now: Timestamp,
                     newHash: TokenHash)
    requires EntryOk(p, e) && OnLedger(ledger, sid, e) && newHash !in ledger
    ensures GainsKey(ledger, Entered(ledger, sid, Mint(e, now, p, newHash).effects), newHash, sid)
  {
    TopOnLedger(ledger, sid, e);
    MintOnLedger(p, ledger, sid, e, now, newHash);
    EnteredGainsKey(ledger, sid, e, now, p, newHash);
  }

  /** What a refresh that goes through does to the ledger. */
  lemma RefreshLedger(p: SessionPolicy, y: System, hash: TokenHash, now: Timestamp, newHash: TokenHash)
    requires Inv(p, y) && y.clock <= now && newHash !in y.ledger && Finds(y, hash)
    requires Refreshable(Classify(y.store.sessions[y.store.index[hash]], hash, now, p))
    ensures var sid, y' := y.store.index[hash], AfterRefresh(p, y, hash, now, newHash);
            if Coalesces(y.store.sessions[sid], now, p) then y'.ledger == y.ledger
            else GainsKey(y.ledger, y'.ledger, newHash, sid)
  {
    var sid := y.store.index[hash];
    Held(p, y, Replay(y.log), hash);
    MintGainsKey(p, y.ledger, sid, y.store.sessions[sid], now, newHash);
    RefreshReplaces(p, y, hash, now, newHash);
  }

  /** The twins of a refreshed session. */
  lemma RefreshTwins(p: SessionPolicy, y: System, z: Store, hash: TokenHash, now: Timestamp, newHash: TokenHash,
                     r: Refreshed, f': Entry, answer: RefreshResult)
    requires Inv(p, y) && Mirrored(p, y, z) && CapIsWide(p) && y.clock <= now && newHash !in y.ledger && Finds(y, hash)
    requires y.store.index[hash] in z.sessions && z.sessions[y.store.index[hash]].gens != []
    requires r == EntryRefresh(y.store.sessions[y.store.index[hash]], hash, now, p, newHash)
    requires (f', answer) == IdealEntryRefresh(z.sessions[y.store.index[hash]], hash, now, p, newHash)
    ensures r.capped == [] && (if r.result.Issued? then answer == r.result else answer.Refused?)
    ensures var sid := y.store.index[hash];
            AllTwins(p, now, y.store.sessions[sid := r.entry], z.sessions[sid := f'])
  {
    var sid := y.store.index[hash];
    var e, f := y.store.sessions[sid], z.sessions[sid];
    Held(p, y, Replay(y.log), hash);
    FreshIsUnclaimed(p, y, sid, newHash);
    assert Twin(p, y.clock, y.store.sessions, z.sessions, sid);
    assert Owns(y.ledger, sid, f);
    RefreshMirrors(p, y.clock, e, f, hash, now, newHash, r, f', answer);
    TwinsChange(p, y.clock, now, y.store.sessions, z.sessions, sid, r.entry, f');
  }

  /** The ideal refresh, case by case. */
  lemma IdealCases(p: SessionPolicy, z: Store, hash: TokenHash, now: Timestamp, newHash: TokenHash)
    requires hash in z.index && z.index[hash] in z.sessions && z.sessions[z.index[hash]].gens != []
    requires Refreshable(Resolve(p, z, hash, now))
    ensures var sid := z.index[hash];
            var f := z.sessions[sid];
            var f' := IdealEntryRefresh(f, hash, now, p, newHash).0;
            if Coalesces(f, now, p) then
              f'.gens == f.gens && IdealRefresh(p, z, hash, now, newHash) == Store(z.sessions[sid := f'], z.index)
            else
              f'.gens == Grown(f, now, p, newHash).gens
              && IdealRefresh(p, z, hash, now, newHash) == Store(z.sessions[sid := f'], z.index[newHash := sid])
  {
  }

  /** Who owns what after a refresh that went through. */
  lemma RefreshOwns(p: SessionPolicy, y: System, z: Store, hash: TokenHash, now: Timestamp, newHash: TokenHash)
    requires Inv(p, y) && Mirrored(p, y, z) && y.clock <= now && newHash !in y.ledger && Finds(y, hash)
    requires Refreshable(Resolve(p, y.store, hash, now)) && Refreshable(Resolve(p, z, hash, now))
    requires hash in z.index && z.index[hash] == y.store.index[hash]
    ensures var y', z' := AfterRefresh(p, y, hash, now, newHash), IdealRefresh(p, z, hash, now, newHash);
            AllOwn(y'.ledger, z') && IndexesAll(y'.ledger, z')
  {
    var sid := y.store.index[hash];
    var e, f := y.store.sessions[sid], z.sessions[sid];
    var f' := IdealEntryRefresh(f, hash, now, p, newHash).0;
    assert Twin(p, y.clock, y.store.sessions, z.sessions, sid);
    RefreshLedger(p, y, hash, now, newHash);
    IdealCases(p, z, hash, now, newHash);
    if Coalesces(e, now, p) {
      SlidOwns(y.ledger, z, sid, f');
    } else {
      GrownOwns(p, y.ledger, AfterRefresh(p, y, hash, now, newHash).ledger, z, sid, f', now, newHash);
    }
  }

  /** A refresh that goes through, seen on both maps. */
  lemma RefreshIssues(p: SessionPolicy, y: System, z: Store, hash: TokenHash, now: Timestamp, newHash: TokenHash)
    requires Inv(p, y) && Mirrored(p, y, z) && CapIsWide(p) && y.clock <= now && newHash !in y.ledger && Finds(y, hash)
    requires Refreshable(Resolve(p, y.store, hash, now)) && Refreshable(Resolve(p, z, hash, now))
    requires hash in z.index && z.index[hash] == y.store.index[hash]
    ensures Mirrored(p, AfterRefresh(p, y, hash, now, newHash), IdealRefresh(p, z, hash, now, newHash))
  {
    var sid := y.store.index[hash];
    var y', z' := AfterRefresh(p, y, hash, now, newHash), IdealRefresh(p, z, hash, now, newHash);
    assert Twin(p, y.clock, y.store.sessions, z.sessions, sid);
    var r := EntryRefresh(y.store.sessions[sid], hash, now, p, newHash);
    var (f', answer) := IdealEntryRefresh(z.sessions[sid], hash, now, p, newHash);
    RefreshTwins(p, y, z, hash, now, newHash, r, f', answer);
    RefreshReplaces(p, y, hash, now, newHash);
    RefreshOwns(p, y, z, hash, now, newHash);
    IdealCases(p, z, hash, now, newHash);
    OverStays(p, y, z, y', z');
  }

  /** The hash leads to the same session on both maps. */
  lemma SameSession(p: SessionPolicy, y: System, z: Store, hash: TokenHash)
    requires Inv(p, y) && Mirrored(p, y, z) && hash in y.store.index
    ensures Finds(y, hash) && hash in z.index && z.index[hash] == y.store.index[hash]
  {
    Held(p, y, Replay(y.log), hash);
  }

  lemma RefreshStepMirrors(p: SessionPolicy, y: System, z: Store, hash: TokenHash, now: Timestamp, newHash: TokenHash)
    requires Inv(p, y) && Mirrored(p, y, z) && CapIsWide(p) && y.clock <= now && newHash !in y.ledger
    ensures Mirrored(p, AfterRefresh(p, y, hash, now, newHash), IdealRefresh(p, z, hash, now, newHash))
  {
    MirroredAgree(p, y, z, hash, now);
    if Refreshable(Resolve(p, y.store, hash, now)) {
      SameSession(p, y, z, hash);
      RefreshIssues(p, y, z, hash, now, newHash);
    } else {
      IdealRefuses(p, z, hash, now, newHash);
      RealRefuses(p, y, hash, now, newHash);
      WaitMirrors(p, y, z, now);
    }
  }

  // ---------------------------------------------------------------------------------------
  // The other operations
  // ---------------------------------------------------------------------------------------

  lemma SameOwners(p: SessionPolicy, ledger: map<TokenHash, GenRow>, z: Store, z': Store)
    requires AllOwn(ledger, z) && IndexesAll(ledger, z) && z'.index == z.index && z'.sessions.Keys == z.sessions.Keys
    requires forall sid :: sid in z.sessions ==> z'.sessions[sid].gens == z.sessions[sid].gens
    ensures AllOwn(ledger, z') && IndexesAll(ledger, z')
  {
    forall sid | sid in z'.sessions ensures Owns(ledger, sid, z'.sessions[sid]) {
      assert Owns(ledger, sid, z.sessions[sid]);
    }
  }

  lemma TombstoneMirrors(p: SessionPolicy, y: System, z: Store, sid: Sid, now: Timestamp)
    requires Mirrored(p, y, z) && y.clock <= now
    ensures Mirrored(p, AfterTombstone(y, sid, now), IdealStep(p, z, Tombstone(sid, now)))
  {
    var y', z' := AfterTombstone(y, sid, now), IdealStep(p, z, Tombstone(sid, now));
    SameOwners(p, y.ledger, z, z');
    if sid in y.store.sessions {
      assert Twin(p, y.clock, y.store.sessions, z.sessions, sid);
      if y.store.sessions[sid].status.Alive? {
        BuriedMirrors(p, y.clock, y.store.sessions[sid], z.sessions[sid], now);
        TwinsChange(p, y.clock, now, y.store.sessions, z.sessions, sid, Buried(y.store.sessions[sid], now),
                    Buried(z.sessions[sid], now));
        OverStays(p, y, z, y', z');
      } else {
        WaitMirrors(p, y, z, now);
      }
    } else {
      forall x | x in y'.store.sessions ensures Twin(p, now, y'.store.sessions, z'.sessions, x) {
        TwinWaits(p, y.clock, now, y.store.sessions, z.sessions, y'.store.sessions, z'.sessions, x);
      }
      forall x | x in z'.sessions && x !in y'.store.sessions ensures OverForGood(p, now, y'.revoked, z'.sessions[x]) {
        assert OverForGood(p, y.clock, y.revoked, z.sessions[x]);
      }
    }
  }

  lemma SetCustodyMirrors(p: SessionPolicy, y: System, z: Store, custody: CustodyId, status: CustodyStatus)
    requires Mirrored(p, y, z) && !Reviving(p, y, SetCustody(custody, status))
    ensures Mirrored(p, AfterSetCustody(y, custody, status), IdealStep(p, z, SetCustody(custody, status)))
  {
    var y', z' := AfterSetCustody(y, custody, status), IdealStep(p, z, SetCustody(custody, status));
    SameOwners(p, y.ledger, z, z');
    forall x | x in y'.store.sessions ensures Twin(p, y.clock, y'.store.sessions, z'.sessions, x) {
      assert Twin(p, y.clock, y.store.sessions, z.sessions, x);
      StatusMirrors(p, y.clock, y.store.sessions[x], z.sessions[x], custody, status);
    }
    forall x | x in z'.sessions && x !in y'.store.sessions ensures OverForGood(p, y.clock, y'.revoked, z'.sessions[x]) {
      assert OverForGood(p, y.clock, y.revoked, z.sessions[x]);
    }
  }

  lemma ReapTidy(p: SessionPolicy, clock: Timestamp, e: Entry, now: Timestamp)
    requires EntryOk(p, e) && Tidy(p, clock, e) && CapIsWide(p) && clock <= now
    ensures Reap(e, now, p).capped == [] && Tidy(p, now, Reap(e, now, p).entry)
  {
    CapEvictsNothing(p, e, now);
    KeptIsSpaced(p, e, now);
    ReapKeepsCurrent(e, now, p);
  }

  /** The real half of one pair changed. */
  lemma OneTwinChanges(p: SessionPolicy, clock: Timestamp, later: Timestamp, sessions: map<Sid, Entry>,
                       ideals: map<Sid, Entry>, sid: Sid, e: Entry)
    requires AllTwins(p, clock, sessions, ideals) && clock <= later && sid in ideals
    requires Tidy(p, later, e) && Mirrors(p, later, e, ideals[sid])
    ensures AllTwins(p, later, sessions[sid := e], ideals)
  {
    assert ideals[sid := ideals[sid]] == ideals;
    TwinsChange(p, clock, later, sessions, ideals, sid, e, ideals[sid]);
  }

  lemma ReapTwins(p: SessionPolicy, clock: Timestamp, sessions: map<Sid, Entry>, ideals: map<Sid, Entry>, sid: Sid,
                  e: Entry, now: Timestamp)
    requires AllTwins(p, clock, sessions, ideals) && CapIsWide(p) && clock <= now
    requires sid in sessions && e == sessions[sid] && EntryOk(p, e)
    ensures Reap(e, now, p).capped == [] && AllTwins(p, now, sessions[sid := Reap(e, now, p).entry], ideals)
  {
    assert Twin(p, clock, sessions, ideals, sid);
    ReapTidy(p, clock, e, now);
    ReapMirrors(p, clock, e, ideals[sid], now);
    OneTwinChanges(p, clock, now, sessions, ideals, sid, Reap(e, now, p).entry);
  }

  lemma ReapStepMirrors(p: SessionPolicy, y: System, z: Store, sid: Sid, now: Timestamp)
    requires Inv(p, y) && Mirrored(p, y, z) && CapIsWide(p) && y.clock <= now
    ensures Mirrored(p, AfterReap(p, y, sid, now), z)
  {
    if sid in y.store.sessions && !Collectible(y.store.sessions[sid], now, p) {
      HasRow(p, y, Replay(y.log), sid);
      ReapTwins(p, y.clock, y.store.sessions, z.sessions, sid, y.store.sessions[sid], now);
      OverStays(p, y, z, AfterReap(p, y, sid, now), z);
    } else {
      WaitMirrors(p, y, z, now);
    }
  }

  lemma CollectMirrors(p: SessionPolicy, y: System, z: Store, sid: Sid, now: Timestamp)
    requires Inv(p, y) && Mirrored(p, y, z) && y.clock <= now
    ensures Mirrored(p, AfterCollect(p, y, sid, now), z)
  {
    var y' := AfterCollect(p, y, sid, now);
    WaitMirrors(p, y, z, now);
    if sid in y.store.sessions && Collectible(y.store.sessions[sid], now, p) {
      HasRow(p, y, Replay(y.log), sid);
      assert Twin(p, now, y.store.sessions, z.sessions, sid);
      forall x | x in y'.store.sessions ensures Twin(p, now, y'.store.sessions, z.sessions, x) {
        TwinWaits(p, now, now, y.store.sessions, z.sessions, y'.store.sessions, z.sessions, x);
      }
      forall x | x in z.sessions && x !in y'.store.sessions ensures OverForGood(p, now, y.revoked, z.sessions[x]) {
        assert x != sid ==> OverForGood(p, now, y.(clock := now).revoked, z.sessions[x]);
      }
    }
  }

  // ---------------------------------------------------------------------------------------
  // Runs
  // ---------------------------------------------------------------------------------------

  lemma StepMirrors(p: SessionPolicy, y: System, z: Store, op: Op)
    requires Inv(p, y) && Mirrored(p, y, z) && CapIsWide(p) && Valid(y, op) && !op.Restart? && !Reviving(p, y, op)
    ensures Mirrored(p, Step(p, y, op), IdealStep(p, z, op))
  {
    match op
    case Create(sid, custody, sub, now, newHash) => CreateMirrors(p, y, z, sid, custody, sub, now, newHash);
    case Refresh(hash, now, newHash) => RefreshStepMirrors(p, y, z, hash, now, newHash);
    case Tombstone(sid, now) => TombstoneMirrors(p, y, z, sid, now);
    case SetCustody(custody, status) => SetCustodyMirrors(p, y, z, custody, status);
    case ReapOne(sid, now) => ReapStepMirrors(p, y, z, sid, now);
    case CollectOne(sid, now) => CollectMirrors(p, y, z, sid, now);
  }

  lemma {:induction false} RunMirrors(p: SessionPolicy, y: System, z: Store, ops: seq<Op>)
    requires Inv(p, y) && Mirrored(p, y, z) && CapIsWide(p) && SteadyRun(p, y, ops)
    ensures Inv(p, Run(p, y, ops)) && Mirrored(p, Run(p, y, ops), IdealRun(p, z, ops))
    decreases |ops|
  {
    if ops != [] {
      StepMirrors(p, y, z, ops[0]);
      StepKeeps(p, y, ops[0]);
      RunMirrors(p, Step(p, y, ops[0]), IdealStep(p, z, ops[0]), ops[1..]);
    }
  }

  /** Never forget: over any run without a restart, the cap evicts nothing inside its window, and
      at every later instant each token authenticates, or can be refreshed, exactly as if every
      generation had been kept forever and no session ever collected. */
  lemma NeverForgets(p: SessionPolicy, start: Timestamp, ops: seq<Op>, hash: TokenHash, now: Timestamp)
    requires CapIsWide(p) && SteadyRun(p, Initial(start), ops)
    ensures var y, z := Run(p, Initial(start), ops), IdealRun(p, NOBODY, ops);
            && y.capped == {}
            && (now >= y.clock ==>
                  (Authenticates(p, y.store, hash, now) <==> Authenticates(p, z, hash, now))
                  && (Refreshable(Resolve(p, y.store, hash, now)) ==>
                      Resolve(p, z, hash, now) == Resolve(p, y.store, hash, now))
                  && (Refreshable(Resolve(p, z, hash, now)) ==>
                      Resolve(p, z, hash, now) == Resolve(p, y.store, hash, now)))
  {
    InitialInv(p, start);
    RunMirrors(p, Initial(start), NOBODY, ops);
    if now >= Run(p, Initial(start), ops).clock {
      MirroredAgree(p, Run(p, Initial(start), ops), IdealRun(p, NOBODY, ops), hash, now);
    }
  }
}
