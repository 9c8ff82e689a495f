/** What the map answers, from what was done: every verdict on a token, and everything a caller is told
    when a token is handed out. */
module SessionVerdicts {
  import opened Prelude
  import opened Custody
  import opened SessionModel
  import opened SessionStore
  import opened SessionEntryFacts
  import opened SessionInvariant
  import opened SessionSteps
  import opened SessionRestart
  import opened SessionHistory

  // ---------------------------------------------------------------------------------------
  // Entries
  // ---------------------------------------------------------------------------------------

  /** A session in memory is what is told of it. */
  ghost predicate EntryTold(p: SessionPolicy, sid: Sid, e: Entry, t: Told) {
    && e.sid == sid && e.custody == t.custody && e.sub == t.sub && e.custodyStatus == t.health
    && e.absoluteExp == t.AbsoluteEnd(p) && e.idleExp == t.IdleEnd(p)
    && e.tombstonedAt == t.out && (e.status.Alive? <==> t.out.None?)
    && t.mints != [] && e.currentGen == |t.mints| && e.gens != []
    && e.gens[|e.gens| - 1] == GenTold(p, t, |t.mints| - 1)
    && (forall g :: g in e.gens ==> 1 <= g.genNo <= |t.mints| && g == GenTold(p, t, g.genNo - 1))
  }

  lemma EntryIsTold(p: SessionPolicy, y: System, told: map<Sid, Told>, sid: Sid)
    requires Inv(p, y) && AsTold(p, y, told) && sid in y.store.sessions
    ensures sid in told && EntryTold(p, sid, y.store.sessions[sid], told[sid])
  {
    EntryRowTold(p, y, told, sid);
    NewestIsTold(p, y.ledger, sid, y.store.sessions[sid], told);
    GensAreTold(p, y.ledger, told, sid, y.store.sessions[sid].gens);
  }

  lemma GensAreTold(p: SessionPolicy, ledger: map<TokenHash, GenRow>, told: map<Sid, Told>, sid: Sid,
                    gens: seq<Generation>)
    requires LedgerTold(p, ledger, told) && sid in told && forall g :: g in gens ==> GenOnLedger(ledger, sid, g)
    ensures forall g :: g in gens ==> 1 <= g.genNo <= |told[sid].mints| && g == GenTold(p, told[sid], g.genNo - 1)
  {
    forall g | g in gens ensures 1 <= g.genNo <= |told[sid].mints| && g == GenTold(p, told[sid], g.genNo - 1) {
      assert GenOnLedger(ledger, sid, g);
      TokenTold(p, ledger, told, g.hash);
    }
  }

  /** A token on the ledger is the one told under its number. */
  lemma TokenTold(p: SessionPolicy, ledger: map<TokenHash, GenRow>, told: map<Sid, Told>, hash: TokenHash)
    requires LedgerTold(p, ledger, told) && hash in ledger
    ensures ledger[hash].sid in told
    ensures var (t, n) := (told[ledger[hash].sid], ledger[hash].gen.genNo);
            1 <= n <= |t.mints| && t.mints[n - 1].hash == hash && ledger[hash].gen == GenTold(p, t, n - 1)
  {
    assert HashTold(ledger[hash], told, hash);
    var sid := ledger[hash].sid;
    assert GensTold(p, ledger, sid, told[sid]);
    assert told[sid].mints[ledger[hash].gen.genNo - 1].hash in ledger;
  }

  // ---------------------------------------------------------------------------------------
  // Verdicts
  // ---------------------------------------------------------------------------------------

  /** Why the session is over, if it is: logged out first, then its absolute end, then its idle end,
      then its custody's death where that kills. */
  function Ended(p: SessionPolicy, t: Told, now: Timestamp): Option<ExpiredReason> {
    if t.out.Some? then Some(LoggedOut)
    else if t.bornAt + p.absoluteTtl <= now then Some(Absolute)
    else if t.lastUse + p.idleTtl <= now then Some(Idle)
    else if t.health.Dead? && p.onUpstreamRevoked.Kill? then Some(UpstreamRevoked)
    else None
  }

  /** The verdict on a session's `i`th token. */
  function Verdict(p: SessionPolicy, sid: Sid, t: Told, i: nat, now: Timestamp): Resolution
    requires i < |t.mints|
  {
    var expiry := t.mints[i].at + p.genTtl;
    match Ended(p, t, now)
    case Some(reason) => HardExpired(sid, reason)
    case None =>
      if i + 1 == |t.mints| then
        if now < expiry then Active(sid, i + 1, true) else StaleRefreshable(sid, i + 1)
      else if now < expiry && now < t.mints[i + 1].at + p.grace then Active(sid, i + 1, false)
      else Retired(sid, i + 1)
  }

  lemma EndedAsTold(p: SessionPolicy, sid: Sid, e: Entry, t: Told, now: Timestamp)
    requires EntryTold(p, sid, e, t)
    ensures SessionExpiry(e, now, p) == Ended(p, t, now)
  {
  }

  /** The verdict on a token among a session's generations. */
  lemma GenVerdict(p: SessionPolicy, sid: Sid, e: Entry, t: Told, g: Generation, now: Timestamp)
    requires EntryTold(p, sid, e, t) && EntryOk(p, e) && g in e.gens
    ensures Classify(e, g.hash, now, p) == Verdict(p, sid, t, g.genNo - 1, now)
  {
    EndedAsTold(p, sid, e, t, now);
    FindsGen(e.gens, g);
  }

  /** The verdict on a token only remembered. */
  lemma MarkVerdict(p: SessionPolicy, sid: Sid, e: Entry, t: Told, m: Mark, now: Timestamp)
    requires EntryTold(p, sid, e, t) && EntryOk(p, e) && m in e.retired
    ensures Classify(e, m.hash, now, p)
         == match Ended(p, t, now) case Some(reason) => HardExpired(sid, reason) case None => Retired(sid, m.genNo)
  {
    EndedAsTold(p, sid, e, t, now);
    NotAmong(e.gens, e.retired, m);
    FindsNoGen(e.gens, m.hash);
    FindsMark(e.retired, m);
  }

  lemma {:induction false} FindsMark(marks: seq<Mark>, m: Mark)
    requires m in marks && DistinctMarks(marks)
    ensures FindMark(marks, m.hash) == Some(m)
  {
    if marks[0].hash != m.hash {
      FindsMark(marks[1..], m);
    }
  }

  /** `v` is the verdict on a session's `n`th token, or calls it retired because the cap pushed it out. */
  predicate Tells(p: SessionPolicy, capped: set<TokenHash>, sid: Sid, t: Told, n: nat, v: Resolution, now: Timestamp)
    requires 1 <= n <= |t.mints|
  {
    || v == Verdict(p, sid, t, n - 1, now)
    || (v == Retired(sid, n) && t.mints[n - 1].hash in capped && Ended(p, t, now).None?)
  }

  /** Every verdict, from what was told. An indexed token resolves by the dates of its session and its own, and
      whether it is the newest, except that one the cap pushed out may be retired early. A token that is
      not indexed is unknown. */
  lemma VerdictIsTold(p: SessionPolicy, y: System, told: map<Sid, Told>, hash: TokenHash, now: Timestamp)
    requires Inv(p, y) && AsTold(p, y, told) && y.clock <= now
    ensures hash !in y.store.index ==> Resolve(p, y.store, hash, now) == Unknown
    ensures hash in y.store.index ==> hash in y.ledger && y.store.index[hash] == y.ledger[hash].sid
    ensures hash in y.store.index ==> TellsOf(p, y, told, hash, Resolve(p, y.store, hash, now), now)
  {
    if hash in y.store.index {
      IndexedVerdict(p, y, told, hash, now);
    }
  }

  /** `v` is the verdict on this token, as told. */
  predicate TellsOf(p: SessionPolicy, y: System, told: map<Sid, Told>, hash: TokenHash, v: Resolution, now: Timestamp)
    requires hash in y.ledger
  {
    var (sid, n) := (y.ledger[hash].sid, y.ledger[hash].gen.genNo);
    && sid in told && 1 <= n <= |told[sid].mints| && told[sid].mints[n - 1].hash == hash
    && Tells(p, y.capped, sid, told[sid], n, v, now)
  }

  lemma IndexedVerdict(p: SessionPolicy, y: System, told: map<Sid, Told>, hash: TokenHash, now: Timestamp)
    requires Inv(p, y) && AsTold(p, y, told) && y.clock <= now && hash in y.store.index
    ensures hash in y.ledger && y.store.index[hash] == y.ledger[hash].sid && y.store.index[hash] in y.store.sessions
    ensures TellsOf(p, y, told, hash, Classify(y.store.sessions[y.store.index[hash]], hash, now, p), now)
  {
    var sid := y.store.index[hash];
    Held(p, y, Replay(y.log), hash);
    TokenTold(p, y.ledger, told, hash);
    EntryIsTold(p, y, told, sid);
    if hash in HashSet(y.store.sessions[sid].gens) {
      HeldHere(p, y, told, sid, hash, now);
    } else {
      SpentHere(p, y, told, sid, hash, now);
    }
  }

  lemma HeldHere(p: SessionPolicy, y: System, told: map<Sid, Told>, sid: Sid, hash: TokenHash, now: Timestamp)
    requires sid in y.store.sessions && sid in told && EntryTold(p, sid, y.store.sessions[sid], told[sid])
    requires EntryOk(p, y.store.sessions[sid]) && OnLedger(y.ledger, sid, y.store.sessions[sid])
    requires hash in HashSet(y.store.sessions[sid].gens)
    ensures hash in y.ledger && TellsOf(p, y, told, hash, Classify(y.store.sessions[sid], hash, now, p), now)
  {
    var e := y.store.sessions[sid];
    var g :| g in e.gens && g.hash == hash;
    assert GenOnLedger(y.ledger, sid, g);
    GenVerdict(p, sid, e, told[sid], g, now);
  }

  lemma SpentHere(p: SessionPolicy, y: System, told: map<Sid, Told>, sid: Sid, hash: TokenHash, now: Timestamp)
    requires sid in y.store.sessions && sid in told && EntryTold(p, sid, y.store.sessions[sid], told[sid])
    requires EntryOk(p, y.store.sessions[sid]) && OnLedger(y.ledger, sid, y.store.sessions[sid])
    requires Dated(p, y, sid, y.store.sessions[sid]) && LedgerTold(p, y.ledger, told) && y.clock <= now
    requires hash in AllHashes(y.store.sessions[sid]) && hash !in HashSet(y.store.sessions[sid].gens)
    ensures hash in y.ledger && TellsOf(p, y, told, hash, Classify(y.store.sessions[sid], hash, now, p), now)
  {
    var e := y.store.sessions[sid];
    var m :| m in e.retired && m.hash == hash;
    assert MarkOnLedger(y.ledger, sid, m) && Spent(p, y, hash);
    TokenTold(p, y.ledger, told, hash);
    SpentVerdict(p, y.capped, sid, e, told[sid], m, y.clock, now);
  }

  lemma SpentVerdict(p: SessionPolicy, capped: set<TokenHash>, sid: Sid, e: Entry, t: Told, m: Mark, clock: Timestamp,
                     now: Timestamp)
    requires EntryTold(p, sid, e, t) && EntryOk(p, e) && m in e.retired && clock <= now
    requires 1 <= m.genNo < |t.mints| && t.mints[m.genNo - 1].hash == m.hash
    requires clock >= GenTold(p, t, m.genNo - 1).ValidUntil(p.grace) || m.hash in capped
    ensures Tells(p, capped, sid, t, m.genNo, Classify(e, m.hash, now, p), now)
  {
    MarkVerdict(p, sid, e, t, m, now);
  }

  /** The newest token of a session in memory is always indexed, and its verdict always the one told. */
  lemma NewestVerdict(p: SessionPolicy, y: System, told: map<Sid, Told>, sid: Sid, now: Timestamp)
    requires Inv(p, y) && AsTold(p, y, told) && sid in y.store.sessions
    ensures sid in told && told[sid].mints != []
    ensures var n := |told[sid].mints|;
            && told[sid].mints[n - 1].hash in y.store.index && y.store.index[told[sid].mints[n - 1].hash] == sid
            && Resolve(p, y.store, told[sid].mints[n - 1].hash, now) == Verdict(p, sid, told[sid], n - 1, now)
  {
    var e := y.store.sessions[sid];
    HasRow(p, y, Replay(y.log), sid);
    EntryIsTold(p, y, told, sid);
    var top := e.gens[|e.gens| - 1];
    assert top in e.gens;
    GenVerdict(p, sid, e, told[sid], top, now);
  }

  // ---------------------------------------------------------------------------------------
  // What a caller is told with a token
  // ---------------------------------------------------------------------------------------

  /** What comes with the newest token of a session. */
  predicate MetaTold(p: SessionPolicy, sid: Sid, t: Told, token: TokenHash, meta: SessionMeta)
    requires t.mints != []
  {
    var last := t.mints[|t.mints| - 1];
    && token == last.hash && meta.gen == |t.mints|
    && meta.sub == t.sub && meta.sid == sid && meta.custody == t.health
    && meta.activeUntil == last.at + p.genTtl
    && meta.refreshUntil == t.IdleEnd(p) && meta.absoluteUntil == t.bornAt + p.absoluteTtl
  }

  /** What it promises: while nothing else happens, the token authenticates exactly until `activeUntil`, can be
      refreshed exactly until `refreshUntil`, and the session never outlasts `absoluteUntil`. */
  predicate Promised(meta: SessionMeta, v: Resolution, now: Timestamp) {
    && meta.refreshUntil <= meta.absoluteUntil
    && (now < meta.refreshUntil && now < meta.activeUntil ==> v == Active(meta.sid, meta.gen, true))
    && (now < meta.refreshUntil && now >= meta.activeUntil ==> v == StaleRefreshable(meta.sid, meta.gen))
    && (meta.refreshUntil <= now < meta.absoluteUntil ==> v == HardExpired(meta.sid, Idle))
    && (now >= meta.absoluteUntil ==> v == HardExpired(meta.sid, Absolute))
  }

  lemma ToldIsPromised(p: SessionPolicy, sid: Sid, t: Told, token: TokenHash, meta: SessionMeta, now: Timestamp)
    requires t.mints != [] && MetaTold(p, sid, t, token, meta)
    requires t.out.None? && !(t.health.Dead? && p.onUpstreamRevoked.Kill?)
    ensures Promised(meta, Verdict(p, sid, t, |t.mints| - 1, now), now)
  {
  }

  /** What a refresh that is served answers, after any run: the newest token, and the dates that follow from
      when the session was created, when that token was minted and that it is used now. A refresh that is not
      served says why. */
  lemma RefreshAnswers(p: SessionPolicy, y: System, told: map<Sid, Told>, hash: TokenHash, now: Timestamp,
                       newHash: TokenHash)
    requires Inv(p, y) && AsTold(p, y, told) && Valid(y, Refresh(hash, now, newHash)) && Finds(y, hash)
    ensures var sid, told' := y.store.index[hash], Tell(p, y.store, told, Refresh(hash, now, newHash));
            var v, r := Resolve(p, y.store, hash, now),
                        EntryRefresh(y.store.sessions[y.store.index[hash]], hash, now, p, newHash).result;
            && (r.Issued? <==> v.Active? || v.StaleRefreshable?)
            && (r.Issued? ==>
                  && sid in told && sid in told' && told'[sid].mints != []
                  && MetaTold(p, sid, told'[sid], r.token, r.meta)
                  && told'[sid].lastUse == now && told'[sid].out.None?
                  && !(told'[sid].health.Dead? && p.onUpstreamRevoked.Kill?)
                  && (r.rotated <==> |told'[sid].mints| == |told[sid].mints| + 1))
            && (v.Unknown? ==> r == Refused(DeniedUnknown))
            && (v.Retired? ==> r == Refused(DeniedRetired(v.sid, v.genNo)))
            && (v.HardExpired? ==> r == Refused(DeniedExpired(v.sid, v.reason)))
  {
    var sid := y.store.index[hash];
    var e := y.store.sessions[sid];
    ServedAsTold(p, y, told, hash, now, newHash);
    EntryIsTold(p, y, told, sid);
    if EntryRefresh(e, hash, now, p, newHash).result.Issued? {
      IssuedAsTold(p, y, told, hash, now, newHash, sid);
    }
  }

  lemma InOrder(p: SessionPolicy, y: System, sid: Sid)
    requires Inv(p, y) && sid in y.store.sessions
    ensures EntryOk(p, y.store.sessions[sid])
  {
    HasRow(p, y, Replay(y.log), sid);
  }

  lemma IssuedAsTold(p: SessionPolicy, y: System, told: map<Sid, Told>, hash: TokenHash, now: Timestamp,
                     newHash: TokenHash, sid: Sid)
    requires Inv(p, y) && AsTold(p, y, told) && y.clock <= now && Finds(y, hash) && sid == y.store.index[hash]
    requires sid in told && EntryTold(p, sid, y.store.sessions[sid], told[sid])
    requires EntryRefresh(y.store.sessions[sid], hash, now, p, newHash).result.Issued?
    ensures AnsweredAsTold(p, sid, told[sid], now, newHash,
                           EntryRefresh(y.store.sessions[sid], hash, now, p, newHash).result)
  {
    InOrder(p, y, sid);
    CoalescesAsTold(p, y, told, sid, now);
    EntryAnswers(p, sid, y.store.sessions[sid], told[sid], hash, now, newHash);
  }

  /** The answer of a served refresh is the one told. */
  predicate AnsweredAsTold(p: SessionPolicy, sid: Sid, t: Told, now: Timestamp, newHash: TokenHash, r: RefreshResult)
    requires t.mints != []
  {
    var t' := Refreshes(p, t, now, newHash);
    && r.Issued? && MetaTold(p, sid, t', r.token, r.meta) && t'.lastUse == now && t'.out.None?
    && !(t'.health.Dead? && p.onUpstreamRevoked.Kill?)
    && (r.rotated <==> |t'.mints| == |t.mints| + 1)
  }

  lemma EntryAnswers(p: SessionPolicy, sid: Sid, e: Entry, t: Told, hash: TokenHash, now: Timestamp,
                     newHash: TokenHash)
    requires EntryTold(p, sid, e, t) && EntryRefresh(e, hash, now, p, newHash).result.Issued?
    requires EntryOk(p, e)
    requires Coalesces(e, now, p) <==> t.inHand && now - t.mints[|t.mints| - 1].at < p.coalesce
    ensures AnsweredAsTold(p, sid, t, now, newHash, EntryRefresh(e, hash, now, p, newHash).result)
  {
    EndedAsTold(p, sid, e, t, now);
    if Coalesces(e, now, p) {
      SlidAnswers(p, sid, e, t, now);
    } else {
      MintAnswers(p, sid, e, t, now, newHash);
    }
  }

  lemma SlidAnswers(p: SessionPolicy, sid: Sid, e: Entry, t: Told, now: Timestamp)
    requires EntryTold(p, sid, e, t) && EntryOk(p, e) && e.currentToken.Some?
    ensures MetaTold(p, sid, t.(lastUse := now), e.currentToken.value, Meta(Slide(e, now, p)))
  {
  }

  lemma MintAnswers(p: SessionPolicy, sid: Sid, e: Entry, t: Told, now: Timestamp, newHash: TokenHash)
    requires EntryTold(p, sid, e, t)
    ensures Mint(e, now, p, newHash).entry.gens != []
    ensures MetaTold(p, sid, WithMint(t, now, newHash), newHash, Meta(Slide(Mint(e, now, p, newHash).entry, now, p)))
  {
    MintKeepsCurrent(e, now, p, newHash);
  }

  /** A token handed out by a refresh keeps what was promised with it, as long as nothing else happens. */
  lemma RefreshKeepsPromise(p: SessionPolicy, y: System, told: map<Sid, Told>, hash: TokenHash, now: Timestamp,
                            newHash: TokenHash, later: Timestamp)
    requires Inv(p, y) && AsTold(p, y, told) && Valid(y, Refresh(hash, now, newHash)) && Finds(y, hash)
    ensures var r := EntryRefresh(y.store.sessions[y.store.index[hash]], hash, now, p, newHash).result;
            r.Issued? ==> && r.meta.refreshUntil <= now + p.idleTtl
                          && Promised(r.meta, Resolve(p, AfterRefresh(p, y, hash, now, newHash).store, r.token, later),
                                      later)
  {
    var sid, op := y.store.index[hash], Refresh(hash, now, newHash);
    var r := EntryRefresh(y.store.sessions[sid], hash, now, p, newHash).result;
    RefreshAnswers(p, y, told, hash, now, newHash);
    if r.Issued? {
      StepTold(p, y, told, op);
      StepKeeps(p, y, op);
      NewestKeepsPromise(p, Step(p, y, op), Tell(p, y.store, told, op), sid, r.token, r.meta, later);
    }
  }

  lemma NewestKeepsPromise(p: SessionPolicy, y: System, told: map<Sid, Told>, sid: Sid, token: TokenHash,
                           meta: SessionMeta, later: Timestamp)
    requires Inv(p, y) && AsTold(p, y, told) && sid in told && told[sid].mints != [] && sid in y.store.sessions
    requires MetaTold(p, sid, told[sid], token, meta)
    requires told[sid].out.None? && !(told[sid].health.Dead? && p.onUpstreamRevoked.Kill?)
    ensures Promised(meta, Resolve(p, y.store, token, later), later)
  {
    NewestVerdict(p, y, told, sid, later);
    ToldIsPromised(p, sid, told[sid], token, meta, later);
  }

  /** And so does the token a new session is created with. */
  lemma CreateKeepsPromise(p: SessionPolicy, y: System, told: map<Sid, Told>, op: Op, later: Timestamp)
    requires Inv(p, y) && AsTold(p, y, told) && op.Create? && Valid(y, op)
    ensures var meta := SessionMeta(op.sub, op.sid, 1, op.now + p.genTtl,
                                    op.now + if p.idleTtl <= p.absoluteTtl then p.idleTtl else p.absoluteTtl,
                                    op.now + p.absoluteTtl, Ok);
            Promised(meta, Resolve(p, Step(p, y, op).store, op.newHash, later), later)
  {
    var told' := Tell(p, y.store, told, op);
    StepTold(p, y, told, op);
    StepKeeps(p, y, op);
    NewestVerdict(p, Step(p, y, op), told', op.sid, later);
  }

  /** Every run from an empty map is as told. */
  lemma RunIsTold(p: SessionPolicy, start: Timestamp, ops: seq<Op>)
    requires ValidRun(p, Initial(start), ops)
    ensures var y, told := Run(p, Initial(start), ops), TellAll(p, Initial(start), map[], ops);
            Inv(p, y) && AsTold(p, y, told)
  {
    InitialInv(p, start);
    RunTold(p, Initial(start), map[], ops);
  }
}
