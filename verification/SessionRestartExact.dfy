/** The bound on restarts is exact: with one restart more, refreshing right after each boot and at the
    coalescing pace otherwise makes the cap throw out a generation inside its window. */
module SessionRestartExact {
  import opened Prelude
  import opened Custody
  import opened SessionModel
  import opened SessionStore
  import opened SessionEntryFacts
  import opened SessionInvariant
  import opened SessionSteps
  import opened SessionRestart
  import opened SessionBoot
  import opened SessionIdeal
  import opened SessionCap
  import opened SessionRestartCap

  /** When the `i`th refresh comes: the first at the coalescing pace, the next `restarts` at that same
      instant, one after each boot, and the rest at the coalescing pace again. With a boot to spare for
      every refresh, all at once. */
  function At(p: SessionPolicy, restarts: nat, i: nat): nat {
    if i == 0 || restarts >= p.Cap() then 0
    else if i <= restarts + 1 then p.coalesce else (i - restarts) * p.coalesce
  }

  /** The refresh that needs no boot before it. */
  predicate Paces(p: SessionPolicy, restarts: nat, k: nat) {
    restarts < p.Cap() && (k <= 1 || k > restarts + 1)
  }

  lemma NextAt(p: SessionPolicy, restarts: nat, i: nat)
    ensures At(p, restarts, i) <= At(p, restarts, i + 1) <= At(p, restarts, i) + p.coalesce
    ensures Paces(p, restarts, i + 1) ==> At(p, restarts, i + 1) == At(p, restarts, i) + p.coalesce
    ensures restarts < p.Cap() ==> At(p, restarts, i + 1) >= p.coalesce
  {
    if i > restarts && restarts < p.Cap() {
      OneMoreTime(i - restarts, p.coalesce);
      TimesMore(1, i - restarts, p.coalesce);
      if i == restarts + 1 {
        assert (i - restarts) * p.coalesce == p.coalesce;
      }
    }
  }

  lemma LastAt(p: SessionPolicy, restarts: nat, k: nat)
    requires k <= p.Cap()
    ensures At(p, restarts, k) <= p.Cap() * p.coalesce
    ensures restarts < p.Cap() ==> At(p, restarts, k) <= (p.Cap() - restarts) * p.coalesce
  {
    TimesMore(0, p.Cap(), p.coalesce);
    if restarts < p.Cap() {
      PacedAt(p, restarts, k);
    }
  }

  lemma PacedAt(p: SessionPolicy, restarts: nat, k: nat)
    requires restarts < p.Cap() && k <= p.Cap()
    ensures At(p, restarts, k) <= (p.Cap() - restarts) * p.coalesce <= p.Cap() * p.coalesce
  {
    TimesMore(p.Cap() - restarts, p.Cap(), p.coalesce);
    TimesMore(0, p.Cap() - restarts, p.coalesce);
    TimesMore(1, p.Cap() - restarts, p.coalesce);
    if k > restarts + 1 {
      TimesMore(k - restarts, p.Cap() - restarts, p.coalesce);
    }
  }

  function StepGens(p: SessionPolicy, restarts: nat, k: nat): seq<Generation> {
    seq(k + 1, i requires 0 <= i <= k =>
      Generation(i + 1, TokenHash(i), At(p, restarts, i), At(p, restarts, i) + p.genTtl,
                 if i < k then Some(At(p, restarts, i + 1)) else None))
  }

  /** The session after `k` refreshes. */
  function Stair(p: SessionPolicy, restarts: nat, k: nat, token: Option<TokenHash>): Entry {
    Entry(SOMEONE, 0, "", StepGens(p, restarts, k), k + 1, token,
          Min(At(p, restarts, k) + p.idleTtl, p.absoluteTtl), p.absoluteTtl, Alive, None, Ok, [])
  }

  /** The plaintext at hand when the next refresh comes. */
  function Token(p: SessionPolicy, restarts: nat, k: nat): Option<TokenHash> {
    if Paces(p, restarts, k + 1) then Some(TokenHash(k)) else None
  }

  /** A policy under which this goes wrong. */
  predicate TooNarrow(p: SessionPolicy, restarts: nat) {
    CanClimb(p) && !CapIsWideAcross(p, restarts)
  }

  // ---------------------------------------------------------------------------------------
  // The entry
  // ---------------------------------------------------------------------------------------

  lemma NoneHasRunOut(p: SessionPolicy, restarts: nat, k: nat)
    requires TooNarrow(p, restarts) && k <= p.Cap()
    ensures forall g :: g in StepGens(p, restarts, k) ==> !Expired(g, k + 1, At(p, restarts, k), p.grace)
    ensures k >= 1 ==> At(p, restarts, k) < StepGens(p, restarts, k)[0].ValidUntil(p.grace)
  {
    LastAt(p, restarts, k);
    TimesMore(if restarts < p.Cap() then 0 else p.Cap() - restarts,
              if restarts < p.Cap() then p.Cap() - restarts else 0, p.coalesce);
    forall i | 0 <= i < k ensures At(p, restarts, k) < StepGens(p, restarts, k)[i].ValidUntil(p.grace) {
      NextAt(p, restarts, i);
    }
  }

  lemma GrowsStair(p: SessionPolicy, restarts: nat, k: nat, token: Option<TokenHash>)
    ensures Grown(Stair(p, restarts, k, token), At(p, restarts, k + 1), p, TokenHash(k + 1)).gens
         == StepGens(p, restarts, k + 1)
  {
    var gens := Grown(Stair(p, restarts, k, token), At(p, restarts, k + 1), p, TokenHash(k + 1)).gens;
    assert |gens| == k + 2;
    forall i | 0 <= i < k + 2 ensures gens[i] == StepGens(p, restarts, k + 1)[i] {
    }
  }

  lemma StepsDiffer(p: SessionPolicy, restarts: nat, k: nat)
    ensures DistinctGens(StepGens(p, restarts, k))
  {
  }

  lemma StairRefreshes(p: SessionPolicy, restarts: nat, k: nat)
    requires TooNarrow(p, restarts) && k < p.Cap()
    ensures var e, now := Stair(p, restarts, k, Token(p, restarts, k)), At(p, restarts, k + 1);
            Refreshable(Classify(e, TokenHash(k), now, p)) && !Coalesces(e, now, p)
  {
    var e, now := Stair(p, restarts, k, Token(p, restarts, k)), At(p, restarts, k + 1);
    NextAt(p, restarts, k);
    LastAt(p, restarts, k + 1);
    assert e.gens[k] in e.gens && e.gens[k].hash == TokenHash(k);
    StepsDiffer(p, restarts, k);
    FindsGen(e.gens, e.gens[k]);
  }

  /** What reaping leaves of it, once it has grown. */
  lemma StairReaps(p: SessionPolicy, restarts: nat, k: nat, grown: Entry)
    requires TooNarrow(p, restarts) && k <= p.Cap()
    requires grown.gens == StepGens(p, restarts, k) && grown.currentGen == k + 1 && grown.retired == []
    ensures k < p.Cap() ==> Reap(grown, At(p, restarts, k), p) == Reaped(grown, [], [])
    ensures k == p.Cap() ==> Reap(grown, At(p, restarts, k), p).capped == [StepGens(p, restarts, k)[0]]
  {
    NoneHasRunOut(p, restarts, k);
    AllKept(grown.gens, k + 1, At(p, restarts, k), p.grace);
    assert grown.gens[0..] == grown.gens;
  }

  /** What the mint of a step does. */
  lemma StairMints(p: SessionPolicy, restarts: nat, k: nat)
    requires TooNarrow(p, restarts) && k < p.Cap()
    ensures var now, h := At(p, restarts, k + 1), TokenHash(k + 1);
            var m := Mint(Stair(p, restarts, k, Token(p, restarts, k)), now, p, h);
            && (k + 1 < p.Cap() ==>
                  && Slide(m.entry, now, p) == Stair(p, restarts, k + 1, Some(h)) && m.capped == []
                  && m.effects.purged == [])
            && (k + 1 == p.Cap() ==> m.capped == [StepGens(p, restarts, k + 1)[0]])
  {
    var e, now, h := Stair(p, restarts, k, Token(p, restarts, k)), At(p, restarts, k + 1), TokenHash(k + 1);
    GrowsStair(p, restarts, k, Token(p, restarts, k));
    StairReaps(p, restarts, k + 1, Grown(e, now, p, h));
  }

  /** And so its refresh. */
  lemma StairClimbs(p: SessionPolicy, restarts: nat, k: nat)
    requires TooNarrow(p, restarts) && k < p.Cap()
    ensures var now, h := At(p, restarts, k + 1), TokenHash(k + 1);
            var e := Stair(p, restarts, k, Token(p, restarts, k));
            var r := EntryRefresh(e, TokenHash(k), now, p, h);
            && r.result.Issued? && r.result.rotated && r.effects == Mint(e, now, p, h).effects
            && r.entry == Slide(Mint(e, now, p, h).entry, now, p) && r.capped == Mint(e, now, p, h).capped
  {
    var e, now, h := Stair(p, restarts, k, Token(p, restarts, k)), At(p, restarts, k + 1), TokenHash(k + 1);
    StairRefreshes(p, restarts, k);
    RefreshCases(e, TokenHash(k), now, p, h);
    RefreshesByMint(e, TokenHash(k), now, p, h);
  }

  lemma RefreshesByMint(e: Entry, hash: TokenHash, now: Timestamp, p: SessionPolicy, newHash: TokenHash)
    requires e.gens != [] && Refreshable(Classify(e, hash, now, p)) && !Coalesces(e, now, p)
    ensures EntryRefresh(e, hash, now, p, newHash).effects == Mint(e, now, p, newHash).effects
  {
  }

  // ---------------------------------------------------------------------------------------
  // A boot of that one session
  // ---------------------------------------------------------------------------------------

  /** The generations of an entry that has retired nothing come back as they were. */
  lemma BootGensBack(p: SessionPolicy, y: System, db: Db, sid: Sid, e: Entry)
    requires Stands(p, y, db, sid, e) && TablesOk(db, y.ledger) && e.retired == []
    ensures ByGenNo(RowsOf(db, sid)) == e.gens
  {
    var l := ByGenNo(RowsOf(db, sid));
    BootGens(db, y.ledger, sid);
    OnLedgerHashes(y.ledger, sid, e);
    forall g ensures g in l <==> g in e.gens {
      if g in e.gens {
        assert GenOnLedger(y.ledger, sid, g) && g.hash in AllHashes(e);
      }
      if g in l {
        assert g.hash in db.gens && g.hash in HashSet(e.gens);
        var x :| x in e.gens && x.hash == g.hash;
        assert GenOnLedger(y.ledger, sid, x);
      }
    }
    AscendingUnique(l, e.gens);
  }

  /** One session in memory, and none forgotten. */
  predicate Alone(y: System, e: Entry) {
    && y.store.sessions == map[SOMEONE := e] && y.sids == {SOMEONE}
    && e.status.Alive? && e.retired == [] && e.custodyStatus == Ok
  }

  lemma BootOfOne(p: SessionPolicy, y: System, db: Db, e: Entry)
    requires InvWith(p, y, db) && Alone(y, e)
    ensures Boot(db).sessions == map[SOMEONE := e.(currentToken := None)]
    ensures Boot(db).index == y.store.index
  {
    HasRow(p, y, db, SOMEONE);
    SessionsOfOne(p, y, db, e);
    forall h ensures SameRoute(Boot(db).index, y.store.index, h) {
      BootIndexOfOne(y.ledger, db, h);
      IndexOfOne(p, y, db, e, h);
    }
    SameRoutes(Boot(db).index, y.store.index);
  }

  predicate SameRoute(a: map<TokenHash, Sid>, b: map<TokenHash, Sid>, h: TokenHash) {
    (h in a <==> h in b) && (h in a ==> a[h] == b[h])
  }

  lemma SameRoutes(a: map<TokenHash, Sid>, b: map<TokenHash, Sid>)
    requires forall h {:trigger SameRoute(a, b, h)} :: SameRoute(a, b, h)
    ensures a == b
  {
    forall h ensures (h in a <==> h in b) && (h in a ==> a[h] == b[h]) {
      assert SameRoute(a, b, h);
    }
  }

  lemma SessionsOfOne(p: SessionPolicy, y: System, db: Db, e: Entry)
    requires Stands(p, y, db, SOMEONE, e) && TablesOk(db, y.ledger) && db.sessions.Keys == {SOMEONE} && Alone(y, e)
    ensures Boot(db).sessions == map[SOMEONE := e.(currentToken := None)]
  {
    BootGensBack(p, y, db, SOMEONE, e);
    BootLadder(db, y.ledger, SOMEONE);
    assert SessionRowOk(db, SOMEONE);
  }

  lemma BootIndexOfOne(ledger: map<TokenHash, GenRow>, db: Db, h: TokenHash)
    requires TablesOk(db, ledger) && db.sessions.Keys == {SOMEONE} && db.sessions[SOMEONE].status.Alive?
    ensures h in Boot(db).index <==> h in db.gens
    ensures h in Boot(db).index ==> Boot(db).index[h] == SOMEONE
  {
    BootHolds(ledger, db, h);
  }

  lemma IndexOfOne(p: SessionPolicy, y: System, db: Db, e: Entry, h: TokenHash)
    requires InvWith(p, y, db) && Alone(y, e)
    ensures h in y.store.index <==> h in db.gens
    ensures h in y.store.index ==> y.store.index[h] == SOMEONE
  {
    if h in y.store.index {
      Held(p, y, db, h);
    } else if h in db.gens {
      NotHeld(p, y, db, h);
    }
  }

  // ---------------------------------------------------------------------------------------
  // The run
  // ---------------------------------------------------------------------------------------

  /** The `k`th refresh, with the newest token. */
  function UpTo(p: SessionPolicy, restarts: nat, k: nat): Op
    requires k > 0
  {
    Refresh(TokenHash(k - 1), At(p, restarts, k), TokenHash(k))
  }

  function Climbing(p: SessionPolicy, restarts: nat, k: nat): seq<Op> {
    if k == 0 then [Create(SOMEONE, 0, "", 0, TokenHash(0))]
    else Climbing(p, restarts, k - 1) + (if Paces(p, restarts, k) then [] else [Restart]) + [UpTo(p, restarts, k)]
  }

  lemma {:induction false} RestartsJoin(a: seq<Op>, b: seq<Op>)
    ensures Restarts(a + b) == Restarts(a) + Restarts(b)
    decreases |a|
  {
    if a == [] {
      assert a + b == b;
    } else {
      assert (a + b)[0] == a[0] && (a + b)[1..] == a[1..] + b;
      RestartsJoin(a[1..], b);
    }
  }

  lemma {:induction false} ClimbingRestarts(p: SessionPolicy, restarts: nat, k: nat)
    requires k <= p.Cap()
    ensures Restarts(Climbing(p, restarts, k)) <= restarts
    ensures restarts >= p.Cap() ==> Restarts(Climbing(p, restarts, k)) <= k
    ensures restarts < p.Cap() && k <= restarts + 1 ==>
              Restarts(Climbing(p, restarts, k)) <= if k == 0 then 0 else k - 1
  {
    if k > 0 {
      var boot := if Paces(p, restarts, k) then [] else [Restart];
      ClimbingRestarts(p, restarts, k - 1);
      RestartsJoin(Climbing(p, restarts, k - 1) + boot, [UpTo(p, restarts, k)]);
      RestartsJoin(Climbing(p, restarts, k - 1), boot);
    }
  }

  lemma {:induction false} ValidSnoc(p: SessionPolicy, y: System, ops: seq<Op>, op: Op)
    ensures Run(p, y, ops + [op]) == Step(p, Run(p, y, ops), op)
    ensures ValidRun(p, y, ops + [op]) <==> ValidRun(p, y, ops) && Valid(Run(p, y, ops), op)
    decreases |ops|
  {
    if ops == [] {
      assert ([op])[1..] == [];
    } else {
      assert (ops + [op])[0] == ops[0] && (ops + [op])[1..] == ops[1..] + [op];
      ValidSnoc(p, Step(p, y, ops[0]), ops[1..], op);
    }
  }

  /** The map after `k` refreshes, the plaintext at hand or not. */
  ghost predicate OnStair(p: SessionPolicy, restarts: nat, y: System, k: nat, token: Option<TokenHash>) {
    && Alone(y, Stair(p, restarts, k, token)) && y.clock == At(p, restarts, k)
    && (forall h :: h in y.ledger <==> h.digest <= k)
    && (forall h :: h in y.store.index <==> h.digest <= k)
    && forall h :: h in y.store.index ==> y.store.index[h] == SOMEONE
  }

  /** A boot on the stair, where one is due. */
  lemma StairBoots(p: SessionPolicy, restarts: nat, y: System, k: nat)
    requires Inv(p, y) && OnStair(p, restarts, y, k, Some(TokenHash(k)))
    ensures OnStair(p, restarts, Step(p, y, Restart), k, None)
  {
    BootOfOne(p, y, Replay(y.log), Stair(p, restarts, k, Some(TokenHash(k))));
  }

  /** The refresh as the map does it. */
  lemma StairStep(p: SessionPolicy, restarts: nat, y: System, k: nat)
    requires TooNarrow(p, restarts) && k < p.Cap() && OnStair(p, restarts, y, k, Token(p, restarts, k))
    ensures Valid(y, UpTo(p, restarts, k + 1))
    ensures var now, h := At(p, restarts, k + 1), TokenHash(k + 1);
            MintedBy(y, Step(p, y, UpTo(p, restarts, k + 1)), SOMEONE, now, h,
                     EntryRefresh(Stair(p, restarts, k, Token(p, restarts, k)), TokenHash(k), now, p, h))
  {
    var e := Stair(p, restarts, k, Token(p, restarts, k));
    NextAt(p, restarts, k);
    StairClimbs(p, restarts, k);
    assert y.store.sessions[SOMEONE] == e;
    RefreshShape(p, y, SOMEONE, TokenHash(k), At(p, restarts, k + 1), TokenHash(k + 1));
  }

  lemma StairReached(p: SessionPolicy, restarts: nat, y: System, y': System, k: nat, token: Option<TokenHash>,
                     r: Refreshed)
    requires OnStair(p, restarts, y, k, token) && r.effects.purged == [] && y'.sids == y.sids
    requires r.entry == Stair(p, restarts, k + 1, Some(TokenHash(k + 1)))
    requires MintedBy(y, y', SOMEONE, At(p, restarts, k + 1), TokenHash(k + 1), r)
    ensures OnStair(p, restarts, y', k + 1, Some(TokenHash(k + 1)))
  {
    assert y'.store.index == y.store.index[TokenHash(k + 1) := SOMEONE];
    assert y'.store.sessions == map[SOMEONE := r.entry];
  }

  lemma StairStarts(p: SessionPolicy, restarts: nat)
    ensures ValidRun(p, Initial(0), Climbing(p, restarts, 0))
    ensures OnStair(p, restarts, Run(p, Initial(0), Climbing(p, restarts, 0)), 0, Some(TokenHash(0)))
  {
    var op := Create(SOMEONE, 0, "", 0, TokenHash(0));
    assert [] + [op] == Climbing(p, restarts, 0);
    ValidSnoc(p, Initial(0), [], op);
    assert NewEntry(SOMEONE, 0, "", 0, p, TokenHash(0)).gens == StepGens(p, restarts, 0);
    assert NewEntry(SOMEONE, 0, "", 0, p, TokenHash(0)) == Stair(p, restarts, 0, Some(TokenHash(0)));
  }

  /** From the stair to where the next refresh can come. */
  lemma ReadyForNext(p: SessionPolicy, restarts: nat, k: nat, ops: seq<Op>) returns (more: seq<Op>)
    requires ValidRun(p, Initial(0), ops) && OnStair(p, restarts, Run(p, Initial(0), ops), k, Some(TokenHash(k)))
    ensures more == ops + if Paces(p, restarts, k + 1) then [] else [Restart]
    ensures ValidRun(p, Initial(0), more) && OnStair(p, restarts, Run(p, Initial(0), more), k, Token(p, restarts, k))
  {
    if Paces(p, restarts, k + 1) {
      more := ops;
      assert ops + [] == ops;
    } else {
      more := ops + [Restart];
      BootsHere(p, restarts, k, ops);
    }
  }

  lemma BootsHere(p: SessionPolicy, restarts: nat, k: nat, ops: seq<Op>)
    requires ValidRun(p, Initial(0), ops) && OnStair(p, restarts, Run(p, Initial(0), ops), k, Some(TokenHash(k)))
    ensures ValidRun(p, Initial(0), ops + [Restart])
    ensures OnStair(p, restarts, Run(p, Initial(0), ops + [Restart]), k, None)
  {
    BootsAfter(p, restarts, k, ops, Run(p, Initial(0), ops));
    ValidSnoc(p, Initial(0), ops, Restart);
  }

  lemma BootsAfter(p: SessionPolicy, restarts: nat, k: nat, ops: seq<Op>, y: System)
    requires ValidRun(p, Initial(0), ops) && y == Run(p, Initial(0), ops)
    requires OnStair(p, restarts, y, k, Some(TokenHash(k)))
    ensures OnStair(p, restarts, Step(p, y, Restart), k, None)
  {
    InitialInv(p, 0);
    RunKeeps(p, Initial(0), ops);
    StairBoots(p, restarts, y, k);
  }

  lemma StairNext(p: SessionPolicy, restarts: nat, k: nat, ops: seq<Op>)
    requires TooNarrow(p, restarts) && k + 1 < p.Cap() && ValidRun(p, Initial(0), ops)
    requires OnStair(p, restarts, Run(p, Initial(0), ops), k, Token(p, restarts, k))
    ensures ValidRun(p, Initial(0), ops + [UpTo(p, restarts, k + 1)])
    ensures OnStair(p, restarts, Run(p, Initial(0), ops + [UpTo(p, restarts, k + 1)]), k + 1, Some(TokenHash(k + 1)))
  {
    var y := Run(p, Initial(0), ops);
    StairStep(p, restarts, y, k);
    ValidSnoc(p, Initial(0), ops, UpTo(p, restarts, k + 1));
    ReachesNext(p, restarts, y, k);
  }

  lemma {:induction false} ClimbsUpTo(p: SessionPolicy, restarts: nat, k: nat)
    requires TooNarrow(p, restarts) && k < p.Cap()
    ensures ValidRun(p, Initial(0), Climbing(p, restarts, k))
    ensures OnStair(p, restarts, Run(p, Initial(0), Climbing(p, restarts, k)), k, Some(TokenHash(k)))
  {
    if k == 0 {
      StairStarts(p, restarts);
    } else {
      ClimbsUpTo(p, restarts, k - 1);
      ClimbsFurther(p, restarts, k - 1);
    }
  }

  lemma ClimbsFurther(p: SessionPolicy, restarts: nat, k: nat)
    requires TooNarrow(p, restarts) && k + 1 < p.Cap() && ValidRun(p, Initial(0), Climbing(p, restarts, k))
    requires OnStair(p, restarts, Run(p, Initial(0), Climbing(p, restarts, k)), k, Some(TokenHash(k)))
    ensures ValidRun(p, Initial(0), Climbing(p, restarts, k + 1))
    ensures OnStair(p, restarts, Run(p, Initial(0), Climbing(p, restarts, k + 1)), k + 1, Some(TokenHash(k + 1)))
  {
    var ready := ReadyForNext(p, restarts, k, Climbing(p, restarts, k));
    assert Climbing(p, restarts, k + 1) == ready + [UpTo(p, restarts, k + 1)];
    StairNext(p, restarts, k, ready);
  }

  lemma ReachesNext(p: SessionPolicy, restarts: nat, y: System, k: nat)
    requires TooNarrow(p, restarts) && k + 1 < p.Cap() && OnStair(p, restarts, y, k, Token(p, restarts, k))
    ensures OnStair(p, restarts, Step(p, y, UpTo(p, restarts, k + 1)), k + 1, Some(TokenHash(k + 1)))
  {
    var e := Stair(p, restarts, k, Token(p, restarts, k));
    StairStep(p, restarts, y, k);
    StairClimbs(p, restarts, k);
    StairMints(p, restarts, k);
    RefreshKeepsSids(p, y, TokenHash(k), At(p, restarts, k + 1), TokenHash(k + 1));
    StairReached(p, restarts, y, Step(p, y, UpTo(p, restarts, k + 1)), k, Token(p, restarts, k),
                 EntryRefresh(e, TokenHash(k), At(p, restarts, k + 1), p, TokenHash(k + 1)));
  }

  lemma RefreshKeepsSids(p: SessionPolicy, y: System, hash: TokenHash, now: Timestamp, newHash: TokenHash)
    ensures AfterRefresh(p, y, hash, now, newHash).sids == y.sids
  {
  }

  /** The refresh that is one too many. */
  lemma FallsOffStair(p: SessionPolicy, restarts: nat, y: System)
    requires TooNarrow(p, restarts) && OnStair(p, restarts, y, p.Cap() - 1, Token(p, restarts, p.Cap() - 1))
    ensures Valid(y, UpTo(p, restarts, p.Cap())) && TokenHash(0) in Step(p, y, UpTo(p, restarts, p.Cap())).capped
  {
    var k := p.Cap() - 1;
    StairStep(p, restarts, y, k);
    StairClimbs(p, restarts, k);
    StairMints(p, restarts, k);
    var now, h := At(p, restarts, k + 1), TokenHash(k + 1);
    CapsFirst(y, Step(p, y, UpTo(p, restarts, k + 1)), now, h, StepGens(p, restarts, k + 1)[0],
              EntryRefresh(Stair(p, restarts, k, Token(p, restarts, k)), TokenHash(k), now, p, h));
  }

  lemma CapsFirst(y: System, y': System, now: Timestamp, newHash: TokenHash, first: Generation, r: Refreshed)
    requires MintedBy(y, y', SOMEONE, now, newHash, r) && r.capped == [first]
    ensures first.hash in y'.capped
  {
    assert first in r.capped;
  }

  /** With one restart too many, a run in which the cap evicts a token inside its window. */
  lemma TooManyRestartsEvict(p: SessionPolicy, restarts: nat) returns (ops: seq<Op>)
    requires TooNarrow(p, restarts)
    ensures ValidRun(p, Initial(0), ops) && Restarts(ops) <= restarts
    ensures TokenHash(0) in Run(p, Initial(0), ops).capped
  {
    var k := p.Cap() - 1;
    ClimbsUpTo(p, restarts, k);
    var ready := ReadyForNext(p, restarts, k, Climbing(p, restarts, k));
    ops := ready + [UpTo(p, restarts, k + 1)];
    assert ops == Climbing(p, restarts, k + 1);
    ClimbingRestarts(p, restarts, k + 1);
    FallsOffStair(p, restarts, Run(p, Initial(0), ready));
    ValidSnoc(p, Initial(0), ready, UpTo(p, restarts, k + 1));
  }

  /** No run with this many restarts makes the cap evict anything inside its window. */
  ghost predicate BearsRestarts(p: SessionPolicy, restarts: nat) {
    forall start, ops {:trigger Run(p, Initial(start), ops)} ::
      ValidRun(p, Initial(start), ops) && Restarts(ops) <= restarts ==> Run(p, Initial(start), ops).capped == {}
  }

  /** Exactly when, for any number of restarts: each costs the cap one generation. */
  lemma BearsRestartsExactly(p: SessionPolicy, restarts: nat)
    requires CanClimb(p)
    ensures BearsRestarts(p, restarts) <==> CapIsWideAcross(p, restarts)
  {
    if CapIsWideAcross(p, restarts) {
      forall start, ops | ValidRun(p, Initial(start), ops) && Restarts(ops) <= restarts
        ensures Run(p, Initial(start), ops).capped == {}
      {
        FewerRestarts(p, Restarts(ops), restarts);
        RestartsEvictNothing(p, start, ops);
      }
    } else {
      var ops := TooManyRestartsEvict(p, restarts);
      assert Run(p, Initial(0), ops).capped != {};
    }
  }

  /** The tunables as shipped. */
  const DEFAULT := SessionPolicy(600, 60, 30, 604_800, 2_592_000, 4, 8, Kill)

  /** They bear one restart, and not two. */
  lemma DefaultBearsOneRestart()
    ensures BearsRestarts(DEFAULT, 1) && !BearsRestarts(DEFAULT, 2)
  {
    BearsRestartsExactly(DEFAULT, 1);
    BearsRestartsExactly(DEFAULT, 2);
  }
}
