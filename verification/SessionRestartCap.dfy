/** How many restarts the cap can bear. A boot forgets the plaintext that coalescing re-issues, so
    the next refresh mints at once: each restart lets one generation come early. */
module SessionRestartCap {
  import opened Prelude
  import opened SessionModel
  import opened SessionStore
  import opened SessionEntryFacts
  import opened SessionInvariant
  import opened SessionSteps
  import opened SessionRestart
  import opened SessionIdeal

  function Restarts(ops: seq<Op>): nat {
    if ops == [] then 0 else (if ops[0].Restart? then 1 else 0) + Restarts(ops[1..])
  }

  /** The cap and the windows, with `restarts` generations that may come early; or windows that close
      as they open. */
  predicate CapIsWideAcross(p: SessionPolicy, restarts: nat) {
    || p.genTtl == 0 || p.grace == 0
    || Min(p.genTtl, p.coalesce + p.grace) <= (p.Cap() - restarts) * p.coalesce
  }

  lemma TimesMore(a: int, b: int, c: nat)
    requires a <= b
    ensures a * c <= b * c
  {
  }

  lemma OneMoreTime(k: int, c: nat)
    ensures (k + 1) * c == k * c + c
  {
  }

  lemma FewerRestarts(p: SessionPolicy, fewer: nat, restarts: nat)
    requires CapIsWideAcross(p, restarts) && fewer <= restarts
    ensures CapIsWideAcross(p, fewer)
  {
    TimesMore(p.Cap() - restarts, p.Cap() - fewer, p.coalesce);
  }

  lemma NoRestarts(p: SessionPolicy)
    ensures CapIsWideAcross(p, 0) <==> CapIsWide(p)
  {
    TimesMore(1, p.Cap(), p.coalesce);
    TimesMore(0, p.Cap(), p.coalesce);
  }

  // ---------------------------------------------------------------------------------------
  // The pace of one session's generations, on the record of everything ever minted
  // ---------------------------------------------------------------------------------------

  /** `b` was minted at the coalescing pace after `a`, but for `slack` generations that came early,
      and not before `a` was superseded. */
  predicate Paced(p: SessionPolicy, a: Generation, b: Generation, slack: int) {
    && b.createdAt >= a.createdAt + (b.genNo - a.genNo - slack) * p.coalesce
    && (a.supersededAt.Some? ==> a.supersededAt.value <= b.createdAt)
  }

  lemma PacedLooser(p: SessionPolicy, a: Generation, b: Generation, slack: int, looser: int)
    requires Paced(p, a, b, slack) && slack <= looser
    ensures Paced(p, a, b, looser)
  {
    TimesMore(b.genNo - a.genNo - looser, b.genNo - a.genNo - slack, p.coalesce);
  }

  /** Two generations of one session, the first minted first. */
  predicate Older(ledger: map<TokenHash, GenRow>, sid: Sid, h: TokenHash, k: TokenHash) {
    && h in ledger && k in ledger && ledger[h].sid == sid && ledger[k].sid == sid
    && ledger[h].gen.genNo < ledger[k].gen.genNo
  }

  ghost predicate AllPaced(p: SessionPolicy, ledger: map<TokenHash, GenRow>, sid: Sid, slack: int) {
    forall h, k {:trigger Paced(p, ledger[h].gen, ledger[k].gen, slack)} ::
      Older(ledger, sid, h, k) ==> Paced(p, ledger[h].gen, ledger[k].gen, slack)
  }

  lemma AllPacedLooser(p: SessionPolicy, ledger: map<TokenHash, GenRow>, sid: Sid, slack: int, looser: int)
    requires AllPaced(p, ledger, sid, slack) && slack <= looser
    ensures AllPaced(p, ledger, sid, looser)
  {
    forall h, k | Older(ledger, sid, h, k)
      ensures Paced(p, ledger[h].gen, ledger[k].gen, looser)
    {
      PacedLooser(p, ledger[h].gen, ledger[k].gen, slack, looser);
    }
  }

  ghost predicate AllDated(p: SessionPolicy, ledger: map<TokenHash, GenRow>, clock: Timestamp) {
    forall h :: h in ledger ==>
      ledger[h].gen.createdAt <= clock && ledger[h].gen.activeUntil == ledger[h].gen.createdAt + p.genTtl
  }

  // ---------------------------------------------------------------------------------------
  // The cap
  // ---------------------------------------------------------------------------------------

  ghost predicate PacedGens(p: SessionPolicy, gens: seq<Generation>, slack: int) {
    && (forall g :: g in gens ==> g.activeUntil == g.createdAt + p.genTtl)
    && forall a, b {:trigger Paced(p, a, b, slack)} :: a in gens && b in gens && a.genNo < b.genNo ==>
         Paced(p, a, b, slack)
  }

  lemma PacedOnLedger(p: SessionPolicy, ledger: map<TokenHash, GenRow>, clock: Timestamp, sid: Sid, e: Entry,
                      slack: int)
    requires OnLedger(ledger, sid, e) && AllPaced(p, ledger, sid, slack) && AllDated(p, ledger, clock)
    ensures PacedGens(p, e.gens, slack)
    ensures forall g :: g in e.gens ==> g.createdAt <= clock
  {
    forall g | g in e.gens ensures g.createdAt <= clock && g.activeUntil == g.createdAt + p.genTtl {
      assert GenOnLedger(ledger, sid, g);
    }
    forall a, b | a in e.gens && b in e.gens && a.genNo < b.genNo ensures Paced(p, a, b, slack) {
      assert GenOnLedger(ledger, sid, a) && GenOnLedger(ledger, sid, b);
      assert Older(ledger, sid, a.hash, b.hash);
      assert Paced(p, ledger[a.hash].gen, ledger[b.hash].gen, slack);
    }
  }

  lemma {:induction false} NumbersSpread(gens: seq<Generation>, current: nat, i: nat, j: nat)
    requires Ladder(gens, current) && i <= j < |gens|
    ensures gens[j].genNo - gens[i].genNo >= j - i
    decreases j - i
  {
    if i < j {
      NumbersSpread(gens, current, i, j - 1);
    }
  }

  /** A front generation with a cap's worth behind it is past its window. */
  lemma FrontRanOut(p: SessionPolicy, kept: seq<Generation>, current: nat, restarts: nat, now: Timestamp)
    requires Ladder(kept, current) && PacedGens(p, kept, restarts) && CapIsWideAcross(p, restarts)
    requires |kept| > p.Cap() && forall g :: g in kept ==> g.createdAt <= now
    ensures now >= kept[0].ValidUntil(p.grace)
  {
    var last, c := |kept| - 1, p.coalesce;
    var front, next, top := kept[0], kept[1], kept[last];
    assert front in kept && next in kept && top in kept;
    NumbersSpread(kept, current, 0, last);
    assert Paced(p, front, top, restarts) && Paced(p, front, next, restarts);
    TimesMore(p.Cap() - restarts, top.genNo - front.genNo - restarts, c);
    if p.genTtl > 0 && p.grace > 0 && p.genTtl > (p.Cap() - restarts) * c {
      NumbersSpread(kept, current, 1, last);
      OneMoreTime(p.Cap() - 1 - restarts, c);
      if last > 1 {
        assert Paced(p, next, top, restarts);
        TimesMore(p.Cap() - 1 - restarts, top.genNo - next.genNo - restarts, c);
      } else {
        TimesMore(p.Cap() - 1 - restarts, 0, c);
      }
    }
  }

  /** So the cap evicts nothing. */
  lemma NothingCapped(p: SessionPolicy, e: Entry, restarts: nat, now: Timestamp)
    requires Ladder(e.gens, e.currentGen) && DistinctGens(e.gens) && PacedGens(p, e.gens, restarts)
    requires CapIsWideAcross(p, restarts) && forall g :: g in e.gens ==> g.createdAt <= now
    ensures Reap(e, now, p).capped == []
  {
    var kept := Kept(e.gens, e.currentGen, now, p.grace);
    KeptLadder(e, now, p.grace);
    KeptOrDropped(e.gens, e.currentGen, now, p.grace);
    if |kept| > p.Cap() {
      assert kept[0] in kept && kept[0].genNo < kept[|kept| - 1].genNo;
      assert kept[|kept| - 1] in kept;
      FrontRanOut(p, kept, e.currentGen, restarts, now);
    }
  }

  // ---------------------------------------------------------------------------------------
  // Minting keeps the pace
  // ---------------------------------------------------------------------------------------

  /** A new generation comes at the coalescing pace, or early by one. */
  predicate Timely(p: SessionPolicy, top: Generation, now: Timestamp, slack: int, slack': int) {
    && 0 <= slack && 0 <= slack' && now >= top.createdAt
    && if slack' == slack then now >= top.createdAt + p.coalesce else slack' == slack + 1
  }

  lemma NewIsPaced(p: SessionPolicy, a: Generation, top: Generation, newer: Generation, now: Timestamp, slack: int,
                   slack': int)
    requires Timely(p, top, now, slack, slack') && newer.createdAt == now && newer.genNo == top.genNo + 1
    requires a.genNo < top.genNo ==> Paced(p, a, top, slack)
    requires a.genNo == top.genNo ==> a.createdAt == top.createdAt
    requires a.genNo <= top.genNo && (a.supersededAt.Some? ==> a.supersededAt.value <= now)
    ensures Paced(p, a, newer, slack')
  {
    var k := top.genNo - a.genNo - slack;
    if slack' == slack {
      OneMoreTime(k, p.coalesce);
    }
    if a.genNo == top.genNo {
      TimesMore(1 - slack', if slack' == slack then 1 else 0, p.coalesce);
    }
  }

  /** What the tables say of a session's generations: numbered up to the current one, all but that
      one superseded. */
  ghost predicate Numbered(ledger: map<TokenHash, GenRow>, sid: Sid, top: Generation) {
    && top.hash in ledger && ledger[top.hash] == GenRow(sid, top)
    && forall h :: h in ledger && ledger[h].sid == sid ==>
         && ledger[h].gen.hash == h && ledger[h].gen.genNo <= top.genNo
         && (ledger[h].gen.genNo == top.genNo ==> h == top.hash)
  }

  lemma TablesNumber(p: SessionPolicy, y: System, db: Db, sid: Sid, e: Entry)
    requires Stands(p, y, db, sid, e) && TablesOk(db, y.ledger)
    ensures Numbered(y.ledger, sid, e.gens[|e.gens| - 1])
  {
    var top := e.gens[|e.gens| - 1];
    TopOnLedger(y.ledger, sid, e);
    forall h | h in y.ledger && y.ledger[h].sid == sid
      ensures y.ledger[h].gen.hash == h && y.ledger[h].gen.genNo <= top.genNo
      ensures y.ledger[h].gen.genNo == top.genNo ==> h == top.hash
    {
      assert LedgerRowOk(db, y.ledger[h], h);
    }
  }

  /** Superseding the newest generation by one that is timely. */
  lemma GrowthIsPaced(p: SessionPolicy, ledger: map<TokenHash, GenRow>, sid: Sid, e: Entry, now: Timestamp,
                      newHash: TokenHash, slack: int, slack': int)
    requires e.gens != [] && newHash !in ledger && Numbered(ledger, sid, e.gens[|e.gens| - 1])
    requires e.currentGen == e.gens[|e.gens| - 1].genNo
    requires AllPaced(p, ledger, sid, slack) && AllDated(p, ledger, now)
    requires Timely(p, e.gens[|e.gens| - 1], now, slack, slack')
    ensures AllPaced(p, Entered(ledger, sid, GrowEffects(e, now, p, newHash)), sid, slack')
    ensures AllDated(p, Entered(ledger, sid, GrowEffects(e, now, p, newHash)), now)
  {
    var top, ledger' := e.gens[|e.gens| - 1], Entered(ledger, sid, GrowEffects(e, now, p, newHash));
    EnteredPointwise(ledger, sid, e, now, p, newHash);
    forall h, k | Older(ledger', sid, h, k) ensures Paced(p, ledger'[h].gen, ledger'[k].gen, slack') {
      if k == newHash {
        OldBeforeNew(p, ledger, sid, top, now, slack, slack', h, ledger'[h].gen, ledger'[k].gen);
      } else if h != newHash {
        OldBeforeOld(p, ledger, ledger', sid, top, slack, slack', h, k);
      }
    }
  }

  lemma OldBeforeNew(p: SessionPolicy, ledger: map<TokenHash, GenRow>, sid: Sid, top: Generation, now: Timestamp,
                     slack: int, slack': int, h: TokenHash, a: Generation, newer: Generation)
    requires Numbered(ledger, sid, top) && AllPaced(p, ledger, sid, slack) && Timely(p, top, now, slack, slack')
    requires h in ledger && ledger[h].sid == sid && newer.createdAt == now && newer.genNo == top.genNo + 1
    requires a == if h == top.hash then top.(supersededAt := Some(now)) else ledger[h].gen
    ensures Paced(p, a, newer, slack')
  {
    if h != top.hash {
      assert Older(ledger, sid, h, top.hash);
      assert Paced(p, ledger[h].gen, ledger[top.hash].gen, slack);
    }
    NewIsPaced(p, a, top, newer, now, slack, slack');
  }

  lemma OldBeforeOld(p: SessionPolicy, ledger: map<TokenHash, GenRow>, ledger': map<TokenHash, GenRow>, sid: Sid,
                     top: Generation, slack: int, slack': int, h: TokenHash, k: TokenHash)
    requires Numbered(ledger, sid, top) && AllPaced(p, ledger, sid, slack) && slack <= slack'
    requires h in ledger && k in ledger && Older(ledger', sid, h, k) && ledger'[h].sid == ledger[h].sid
    requires ledger'[k].sid == ledger[k].sid && ledger'[k].gen.createdAt == ledger[k].gen.createdAt
    requires ledger'[k].gen.genNo == ledger[k].gen.genNo && ledger'[h].gen.genNo == ledger[h].gen.genNo
    requires h != top.hash ==> ledger'[h] == ledger[h]
    ensures Paced(p, ledger'[h].gen, ledger'[k].gen, slack')
  {
    assert Older(ledger, sid, h, k);
    assert h != top.hash;
    assert Paced(p, ledger[h].gen, ledger[k].gen, slack);
    PacedLooser(p, ledger[h].gen, ledger[k].gen, slack, slack');
  }

  /** Another session's generations keep their pace. */
  lemma OthersPaced(p: SessionPolicy, ledger: map<TokenHash, GenRow>, ledger': map<TokenHash, GenRow>, x: Sid,
                    slack: int)
    requires AllPaced(p, ledger, x, slack)
    requires forall h :: h in ledger' && ledger'[h].sid == x ==> h in ledger && ledger[h] == ledger'[h]
    ensures AllPaced(p, ledger', x, slack)
  {
    forall h, k | Older(ledger', x, h, k) ensures Paced(p, ledger'[h].gen, ledger'[k].gen, slack) {
      assert Older(ledger, x, h, k);
    }
  }

  // ---------------------------------------------------------------------------------------
  // The whole map
  // ---------------------------------------------------------------------------------------

  /** A living session whose plaintext a boot dropped has one early generation left to come. */
  function Slack(y: System, sid: Sid, restarts: nat): int {
    if sid in y.store.sessions && y.store.sessions[sid].status.Alive? && y.store.sessions[sid].currentToken.None?
    then restarts - 1 else restarts
  }

  ghost predicate SidInPace(p: SessionPolicy, y: System, sid: Sid, restarts: nat) {
    0 <= Slack(y, sid, restarts) && AllPaced(p, y.ledger, sid, Slack(y, sid, restarts))
  }

  ghost predicate InPace(p: SessionPolicy, y: System, restarts: nat) {
    && y.capped == {} && AllDated(p, y.ledger, y.clock)
    && forall sid {:trigger SidInPace(p, y, sid, restarts)} :: SidInPace(p, y, sid, restarts)
  }

  /** A step that mints nothing and hands no plaintext out. */
  lemma SamePace(p: SessionPolicy, y: System, y': System, restarts: nat, restarts': nat)
    requires InPace(p, y, restarts) && y'.ledger == y.ledger && y.clock <= y'.clock && y'.capped == {}
    requires forall sid :: Slack(y, sid, restarts) <= Slack(y', sid, restarts')
    ensures InPace(p, y', restarts')
  {
    forall sid ensures SidInPace(p, y', sid, restarts') {
      assert SidInPace(p, y, sid, restarts);
      AllPacedLooser(p, y.ledger, sid, Slack(y, sid, restarts), Slack(y', sid, restarts'));
    }
  }

  lemma CreateInPace(p: SessionPolicy, y: System, restarts: nat, op: Op)
    requires Inv(p, y) && InPace(p, y, restarts) && op.Create? && Valid(y, op)
    ensures InPace(p, Step(p, y, op), restarts)
  {
    var y' := Step(p, y, op);
    forall h | h in y.ledger ensures y.ledger[h].sid != op.sid {
      assert LedgerRowOk(Replay(y.log), y.ledger[h], h);
    }
    forall x ensures SidInPace(p, y', x, restarts) {
      assert SidInPace(p, y, x, restarts);
      if x != op.sid {
        OthersPaced(p, y.ledger, y'.ledger, x, Slack(y, x, restarts));
      }
    }
  }

  /** The session that mints: its new generation is timely. */
  lemma MintIsTimely(p: SessionPolicy, y: System, restarts: nat, sid: Sid, now: Timestamp)
    requires Inv(p, y) && InPace(p, y, restarts) && y.clock <= now && sid in y.store.sessions
    requires y.store.sessions[sid].status.Alive? && y.store.sessions[sid].gens != []
    requires !Coalesces(y.store.sessions[sid], now, p)
    ensures var e := y.store.sessions[sid];
            Timely(p, e.gens[|e.gens| - 1], now, Slack(y, sid, restarts), restarts)
  {
    var e := y.store.sessions[sid];
    HasRow(p, y, Replay(y.log), sid);
    TopOnLedger(y.ledger, sid, e);
    assert SidInPace(p, y, sid, restarts);
  }

  /** And so the mint's reaping evicts nothing. */
  lemma MintCapsNothing(p: SessionPolicy, ledger: map<TokenHash, GenRow>, sid: Sid, e: Entry, now: Timestamp,
                        newHash: TokenHash, restarts: nat)
    requires EntryOk(p, e) && OnLedger(ledger, sid, e) && newHash !in ledger && newHash !in AllHashes(e)
    requires AllPaced(p, Entered(ledger, sid, GrowEffects(e, now, p, newHash)), sid, restarts)
    requires AllDated(p, Entered(ledger, sid, GrowEffects(e, now, p, newHash)), now)
    requires CapIsWideAcross(p, restarts)
    ensures Mint(e, now, p, newHash).capped == []
  {
    var grown := Grown(e, now, p, newHash);
    GrownOk(p, e, now, newHash);
    GrownOnLedger(p, ledger, sid, e, now, newHash);
    PacedOnLedger(p, Entered(ledger, sid, GrowEffects(e, now, p, newHash)), now, sid, grown, restarts);
    NothingCapped(p, grown, restarts, now);
  }

  lemma MintInPace(p: SessionPolicy, y: System, y': System, restarts: nat, sid: Sid, e: Entry, now: Timestamp,
                   newHash: TokenHash, idleExp: Timestamp)
    requires Inv(p, y) && InPace(p, y, restarts) && newHash !in y.ledger && CapIsWideAcross(p, restarts)
    requires MintedTo(p, y, y', sid, e, now, newHash, idleExp) && e.status.Alive? && !Coalesces(e, now, p)
    requires y'.capped == y.capped + HashSet(Mint(e, now, p, newHash).capped)
    ensures InPace(p, y', restarts)
  {
    var top := e.gens[|e.gens| - 1];
    MintIsTimely(p, y, restarts, sid, now);
    HasRow(p, y, Replay(y.log), sid);
    OnLedgerHashes(y.ledger, sid, e);
    TablesNumber(p, y, Replay(y.log), sid, e);
    MintOnLedger(p, y.ledger, sid, e, now, newHash);
    TopOnLedger(y.ledger, sid, e);
    EnteredPointwise(y.ledger, sid, e, now, p, newHash);
    assert SidInPace(p, y, sid, restarts);
    GrowthIsPaced(p, y.ledger, sid, e, now, newHash, Slack(y, sid, restarts), restarts);
    MintCapsNothing(p, y.ledger, sid, e, now, newHash, restarts);
    forall x ensures SidInPace(p, y', x, restarts) {
      MintedSidInPace(p, y, y', restarts, sid, e, now, newHash, x);
    }
  }

  lemma MintedSidInPace(p: SessionPolicy, y: System, y': System, restarts: nat, sid: Sid, e: Entry, now: Timestamp,
                        newHash: TokenHash, x: Sid)
    requires SidInPace(p, y, x, restarts) && OnLedger(y.ledger, sid, e) && e.gens != [] && newHash !in y.ledger
    requires y'.ledger == Entered(y.ledger, sid, GrowEffects(e, now, p, newHash))
    requires AllPaced(p, y'.ledger, sid, restarts)
    requires sid in y.store.sessions && y'.store.sessions.Keys == y.store.sessions.Keys
    requires y'.store.sessions[sid].currentToken.Some?
    requires forall z :: z in y.store.sessions && z != sid ==> y'.store.sessions[z] == y.store.sessions[z]
    ensures SidInPace(p, y', x, restarts)
  {
    if x != sid {
      TopOnLedger(y.ledger, sid, e);
      EnteredPointwise(y.ledger, sid, e, now, p, newHash);
      OthersPaced(p, y.ledger, y'.ledger, x, Slack(y, x, restarts));
    }
  }

  lemma RefreshInPace(p: SessionPolicy, y: System, restarts: nat, hash: TokenHash, now: Timestamp, newHash: TokenHash)
    requires Inv(p, y) && InPace(p, y, restarts) && y.clock <= now && newHash !in y.ledger
             && CapIsWideAcross(p, restarts)
    ensures InPace(p, AfterRefresh(p, y, hash, now, newHash), restarts)
  {
    var y' := AfterRefresh(p, y, hash, now, newHash);
    if !Finds(y, hash) || EntryRefresh(y.store.sessions[y.store.index[hash]], hash, now, p, newHash).result.Refused? {
      SamePace(p, y, y', restarts, restarts);
    } else {
      var sid := y.store.index[hash];
      var e := y.store.sessions[sid];
      if Coalesces(e, now, p) {
        RefreshSlides(p, y, hash, now, newHash);
        CoalescedCapsNothing(p, y, hash, now, newHash);
        SamePace(p, y, y', restarts, restarts);
      } else {
        RefreshMintsTo(p, y, hash, now, newHash);
        RefreshMintsCap(p, y, hash, now, newHash);
        MintInPace(p, y, y', restarts, sid, e, now, newHash, Min(now + p.idleTtl, e.absoluteExp));
      }
    }
  }

  lemma CoalescedCapsNothing(p: SessionPolicy, y: System, hash: TokenHash, now: Timestamp, newHash: TokenHash)
    requires Finds(y, hash) && Coalesces(y.store.sessions[y.store.index[hash]], now, p)
    ensures AfterRefresh(p, y, hash, now, newHash).capped == y.capped
  {
    assert HashSet([]) == {};
  }

  lemma RefreshMintsCap(p: SessionPolicy, y: System, hash: TokenHash, now: Timestamp, newHash: TokenHash)
    requires Finds(y, hash)
    requires var e := y.store.sessions[y.store.index[hash]];
             EntryRefresh(e, hash, now, p, newHash).result.Issued? && !Coalesces(e, now, p)
    ensures var e := y.store.sessions[y.store.index[hash]];
            && AfterRefresh(p, y, hash, now, newHash).capped == y.capped + HashSet(Mint(e, now, p, newHash).capped)
            && e.status.Alive?
  {
  }

  lemma ReapInPace(p: SessionPolicy, y: System, restarts: nat, sid: Sid, now: Timestamp)
    requires Inv(p, y) && InPace(p, y, restarts) && y.clock <= now && CapIsWideAcross(p, restarts)
    ensures InPace(p, AfterReap(p, y, sid, now), restarts)
  {
    var y' := AfterReap(p, y, sid, now);
    if sid in y.store.sessions && !Collectible(y.store.sessions[sid], now, p) {
      var e := y.store.sessions[sid];
      HasRow(p, y, Replay(y.log), sid);
      assert SidInPace(p, y, sid, restarts);
      AllPacedLooser(p, y.ledger, sid, Slack(y, sid, restarts), restarts);
      PacedOnLedger(p, y.ledger, y.clock, sid, e, restarts);
      NothingCapped(p, e, restarts, now);
      ReapCapsNothing(p, y, sid, now);
    }
    SamePace(p, y, y', restarts, restarts);
  }

  lemma ReapCapsNothing(p: SessionPolicy, y: System, sid: Sid, now: Timestamp)
    requires sid in y.store.sessions && Reap(y.store.sessions[sid], now, p).capped == []
    ensures AfterReap(p, y, sid, now).capped == y.capped && AfterReap(p, y, sid, now).ledger == y.ledger
  {
    assert HashSet([]) == {};
  }

  lemma StepInPace(p: SessionPolicy, y: System, restarts: nat, op: Op)
    requires Inv(p, y) && InPace(p, y, restarts) && Valid(y, op) && CapIsWideAcross(p, restarts)
    ensures InPace(p, Step(p, y, op), if op.Restart? then restarts + 1 else restarts)
  {
    match op
    case Create(_, _, _, _, _) => CreateInPace(p, y, restarts, op);
    case Refresh(hash, now, newHash) => RefreshInPace(p, y, restarts, hash, now, newHash);
    case ReapOne(sid, now) => ReapInPace(p, y, restarts, sid, now);
    case Restart => SamePace(p, y, Step(p, y, op), restarts, restarts + 1);
    case _ => SamePace(p, y, Step(p, y, op), restarts, restarts);
  }

  lemma {:induction false} RunInPace(p: SessionPolicy, y: System, restarts: nat, ops: seq<Op>)
    requires Inv(p, y) && InPace(p, y, restarts) && ValidRun(p, y, ops)
    requires CapIsWideAcross(p, restarts + Restarts(ops))
    ensures InPace(p, Run(p, y, ops), restarts + Restarts(ops))
    decreases |ops|
  {
    if ops != [] {
      FewerRestarts(p, restarts, restarts + Restarts(ops));
      StepKeeps(p, y, ops[0]);
      StepInPace(p, y, restarts, ops[0]);
      RunInPace(p, Step(p, y, ops[0]), if ops[0].Restart? then restarts + 1 else restarts, ops[1..]);
    }
  }

  /** Over any run with no more than this many restarts the cap evicts nothing inside its window. */
  lemma RestartsEvictNothing(p: SessionPolicy, start: Timestamp, ops: seq<Op>)
    requires ValidRun(p, Initial(start), ops) && CapIsWideAcross(p, Restarts(ops))
    ensures Run(p, Initial(start), ops).capped == {}
  {
    InitialInv(p, start);
    forall sid ensures SidInPace(p, Initial(start), sid, 0) {
    }
    RunInPace(p, Initial(start), 0, ops);
  }

  /** And so no restart of such a run is visible: wherever a custody's death did not intervene, the
      next boot answers as the map did, but for what logout and the sweep explain. */
  lemma RestartsAreInvisible(p: SessionPolicy, start: Timestamp, ops: seq<Op>, hash: TokenHash, now: Timestamp)
    requires ValidRun(p, Initial(start), ops) && CapIsWideAcross(p, Restarts(ops))
    requires Run(p, Initial(start), ops).clock <= now && Unrevoked(p, Run(p, Initial(start), ops), hash)
    ensures var y := Run(p, Initial(start), ops);
            Carries(Resolve(p, y.store, hash, now), Resolve(p, Rebooted(y), hash, now))
  {
    RestartsEvictNothing(p, start, ops);
    assert Reachable(p, Run(p, Initial(start), ops));
    RestartVerdict(p, Run(p, Initial(start), ops), hash, now);
  }
}
