/** The bound on the windows is exact: without it, refreshing at every opportunity makes the cap
    throw out a generation that should still authenticate. */
module SessionCap {
  import opened Prelude
  import opened Custody
  import opened SessionModel
  import opened SessionStore
  import opened SessionEntryFacts
  import opened SessionRestart
  import opened SessionNoResurrection
  import opened SessionIdeal
  import opened SessionNeverForget

  const SOMEONE := Sid("s")

  /** A session can be refreshed a cap's worth of times at the coalescing pace. */
  predicate CanClimb(p: SessionPolicy) {
    p.coalesce < p.idleTtl && p.Cap() * p.coalesce < p.absoluteTtl
  }

  /** The generations after `k` refreshes, each as early as coalescing allows. */
  function RungGens(p: SessionPolicy, k: nat): seq<Generation> {
    seq(k + 1, i requires 0 <= i <= k =>
      Generation(i + 1, TokenHash(i), i * p.coalesce, i * p.coalesce + p.genTtl,
                 if i < k then Some((i + 1) * p.coalesce) else None))
  }

  function Rung(p: SessionPolicy, k: nat): Entry {
    Entry(SOMEONE, 0, "", RungGens(p, k), k + 1, Some(TokenHash(k)),
          Min(k * p.coalesce + p.idleTtl, p.absoluteTtl), p.absoluteTtl, Alive, None, Ok, [])
  }

  lemma {:induction false} AllKept(gens: seq<Generation>, current: nat, now: Timestamp, grace: nat)
    requires forall g :: g in gens ==> !Expired(g, current, now, grace)
    ensures Kept(gens, current, now, grace) == gens && Dropped(gens, current, now, grace) == []
  {
    if gens != [] {
      AllKept(gens[..|gens| - 1], current, now, grace);
      assert gens == gens[..|gens| - 1] + [gens[|gens| - 1]];
    }
  }

  lemma Distribute(k: nat, c: nat)
    ensures (k + 1) * c == k * c + c
  {
  }

  /** Nothing on the ladder has run out by the time it is a cap's worth long. */
  lemma NoneRunsOut(p: SessionPolicy, k: nat)
    requires !CapIsWide(p) && k <= p.Cap()
    ensures forall g :: g in RungGens(p, k) ==> !Expired(g, k + 1, k * p.coalesce, p.grace)
    ensures k >= 1 ==> k * p.coalesce < RungGens(p, k)[0].ValidUntil(p.grace)
  {
    forall i | 0 <= i < k ensures k * p.coalesce < RungGens(p, k)[i].ValidUntil(p.grace) {
      MoreTimes(k, p.Cap(), p.coalesce);
      MoreTimes(0, i, p.coalesce);
      Distribute(i, p.coalesce);
    }
  }

  lemma GrowsRung(p: SessionPolicy, k: nat)
    ensures Grown(Rung(p, k), (k + 1) * p.coalesce, p, TokenHash(k + 1)).gens == RungGens(p, k + 1)
  {
    var gens := Grown(Rung(p, k), (k + 1) * p.coalesce, p, TokenHash(k + 1)).gens;
    assert |gens| == k + 2;
    forall i | 0 <= i < k + 2 ensures gens[i] == RungGens(p, k + 1)[i] {
    }
  }

  /** The newest token can be refreshed, and is too old to coalesce. */
  lemma RungRefreshes(p: SessionPolicy, k: nat)
    requires CanClimb(p) && k < p.Cap()
    ensures Refreshable(Classify(Rung(p, k), TokenHash(k), (k + 1) * p.coalesce, p))
    ensures !Coalesces(Rung(p, k), (k + 1) * p.coalesce, p)
  {
    Distribute(k, p.coalesce);
    MoreTimes(k + 1, p.Cap(), p.coalesce);
    var e := Rung(p, k);
    assert e.gens[k] in e.gens && e.gens[k].hash == TokenHash(k);
    RungDistinct(p, k);
    FindsGen(e.gens, e.gens[k]);
  }

  lemma RungDistinct(p: SessionPolicy, k: nat)
    ensures DistinctGens(RungGens(p, k))
  {
  }

  /** One refresh up, while the cap has room. */
  lemma ClimbsOne(p: SessionPolicy, k: nat)
    requires CanClimb(p) && !CapIsWide(p) && k + 1 < p.Cap()
    ensures var r := EntryRefresh(Rung(p, k), TokenHash(k), (k + 1) * p.coalesce, p, TokenHash(k + 1));
            r.entry == Rung(p, k + 1) && r.capped == [] && r.result.Issued? && r.result.rotated
            && r.effects.purged == [] && r.effects.added.Some? && r.effects.added.value.hash == TokenHash(k + 1)
  {
    var e, now, h := Rung(p, k), (k + 1) * p.coalesce, TokenHash(k + 1);
    RungRefreshes(p, k);
    RefreshCases(e, TokenHash(k), now, p, h);
    GrowsRung(p, k);
    NoneRunsOut(p, k + 1);
    AllKept(RungGens(p, k + 1), k + 2, now, p.grace);
    assert RungGens(p, k + 1)[0..] == RungGens(p, k + 1);
  }

  /** And the one that is too many. */
  lemma ClimbsOff(p: SessionPolicy)
    requires CanClimb(p) && !CapIsWide(p)
    ensures var k := p.Cap() - 1;
            var r := EntryRefresh(Rung(p, k), TokenHash(k), (k + 1) * p.coalesce, p, TokenHash(k + 1));
            r.capped == [RungGens(p, k + 1)[0]] && r.entry.gens == RungGens(p, k + 1)[1..]
  {
    var k := p.Cap() - 1;
    var now := (k + 1) * p.coalesce;
    RungRefreshes(p, k);
    RefreshCases(Rung(p, k), TokenHash(k), now, p, TokenHash(k + 1));
    GrowsRung(p, k);
    NoneRunsOut(p, k + 1);
    AllKept(RungGens(p, k + 1), k + 2, now, p.grace);
  }

  // ---------------------------------------------------------------------------------------
  // The run
  // ---------------------------------------------------------------------------------------

  function Climb(p: SessionPolicy, k: nat): seq<Op> {
    if k == 0 then [Create(SOMEONE, 0, "", 0, TokenHash(0))]
    else Climb(p, k - 1) + [Refresh(TokenHash(k - 1), k * p.coalesce, TokenHash(k))]
  }

  lemma {:induction false} RunSnoc(p: SessionPolicy, y: System, z: Store, ops: seq<Op>, op: Op)
    ensures Run(p, y, ops + [op]) == Step(p, Run(p, y, ops), op)
    ensures IdealRun(p, z, ops + [op]) == IdealStep(p, IdealRun(p, z, ops), op)
    ensures SteadyRun(p, y, ops + [op])
       <==> SteadyRun(p, y, ops) && Valid(Run(p, y, ops), op) && !op.Restart? && !Reviving(p, Run(p, y, ops), op)
    decreases |ops|
  {
    if ops == [] {
      assert ([op])[1..] == [];
    } else {
      assert (ops + [op])[0] == ops[0] && (ops + [op])[1..] == ops[1..] + [op];
      RunSnoc(p, Step(p, y, ops[0]), IdealStep(p, z, ops[0]), ops[1..], op);
    }
  }

  /** Both maps after `k` refreshes. */
  ghost predicate AtRung(p: SessionPolicy, y: System, z: Store, k: nat) {
    && y.store.sessions == map[SOMEONE := Rung(p, k)] && z == y.store
    && (forall h :: h in y.ledger <==> h.digest <= k)
    && (forall h :: h in y.store.index <==> h.digest <= k)
    && (forall h :: h in y.store.index ==> y.store.index[h] == SOMEONE)
    && y.clock == k * p.coalesce
  }

  /** What a refresh that minted leaves of the map. */
  predicate MintedBy(y: System, y': System, sid: Sid, now: Timestamp, newHash: TokenHash, r: Refreshed) {
    && y'.store.sessions == y.store.sessions[sid := r.entry]
    && y'.store.index == y.store.index[newHash := sid] - (set h | h in r.effects.purged)
    && y'.ledger.Keys == y.ledger.Keys + {newHash} && y'.clock == now
    && y'.capped == y.capped + HashSet(r.capped)
  }

  lemma RefreshShape(p: SessionPolicy, y: System, sid: Sid, hash: TokenHash, now: Timestamp, newHash: TokenHash)
    requires hash in y.store.index && y.store.index[hash] == sid && sid in y.store.sessions
    requires y.store.sessions[sid].gens != []
    requires var r := EntryRefresh(y.store.sessions[sid], hash, now, p, newHash);
             && r.result.Issued? && r.result.rotated && r.effects.added.Some? && r.effects.added.value.hash == newHash
             && (r.effects.superseded.Some? ==> r.effects.superseded.value.hash in y.ledger)
    ensures MintedBy(y, AfterRefresh(p, y, hash, now, newHash), sid, now, newHash,
                     EntryRefresh(y.store.sessions[sid], hash, now, p, newHash))
  {
  }

  /** What the effects of a rung's refresh are. */
  lemma RungEffects(p: SessionPolicy, k: nat)
    requires CanClimb(p) && !CapIsWide(p) && k < p.Cap()
    ensures var r := EntryRefresh(Rung(p, k), TokenHash(k), (k + 1) * p.coalesce, p, TokenHash(k + 1));
            && r.result.Issued? && r.result.rotated && r.effects.added.Some?
            && r.effects.added.value.hash == TokenHash(k + 1)
            && r.effects.superseded.Some? && r.effects.superseded.value.hash == TokenHash(k)
  {
    RungRefreshes(p, k);
    RefreshCases(Rung(p, k), TokenHash(k), (k + 1) * p.coalesce, p, TokenHash(k + 1));
  }

  lemma IdealShape(p: SessionPolicy, z: Store, k: nat)
    requires CanClimb(p) && !CapIsWide(p) && k < p.Cap()
    requires z.sessions == map[SOMEONE := Rung(p, k)] && TokenHash(k) in z.index && z.index[TokenHash(k)] == SOMEONE
    ensures IdealRefresh(p, z, TokenHash(k), (k + 1) * p.coalesce, TokenHash(k + 1))
         == Store(map[SOMEONE := Rung(p, k + 1)], z.index[TokenHash(k + 1) := SOMEONE])
  {
    var now := (k + 1) * p.coalesce;
    RungRefreshes(p, k);
    GrowsRung(p, k);
    IdealCases(p, z, TokenHash(k), now, TokenHash(k + 1));
    assert Slide(Grown(Rung(p, k), now, p, TokenHash(k + 1)), now, p) == Rung(p, k + 1);
    assert z.sessions[SOMEONE := Rung(p, k + 1)] == map[SOMEONE := Rung(p, k + 1)];
  }

  lemma RungReached(p: SessionPolicy, y: System, z: Store, y': System, z': Store, k: nat, r: Refreshed)
    requires AtRung(p, y, z, k) && r.entry == Rung(p, k + 1) && r.effects.purged == []
    requires MintedBy(y, y', SOMEONE, (k + 1) * p.coalesce, TokenHash(k + 1), r)
    requires z' == Store(map[SOMEONE := Rung(p, k + 1)], z.index[TokenHash(k + 1) := SOMEONE])
    ensures AtRung(p, y', z', k + 1)
  {
    assert y'.store.index == y.store.index[TokenHash(k + 1) := SOMEONE];
    assert y'.store.sessions == map[SOMEONE := Rung(p, k + 1)];
  }

  /** The refresh of a rung, as the map does it. */
  lemma RungMints(p: SessionPolicy, y: System, z: Store, k: nat)
    requires CanClimb(p) && !CapIsWide(p) && k < p.Cap() && AtRung(p, y, z, k)
    ensures var now := (k + 1) * p.coalesce;
            MintedBy(y, AfterRefresh(p, y, TokenHash(k), now, TokenHash(k + 1)), SOMEONE, now, TokenHash(k + 1),
                     EntryRefresh(Rung(p, k), TokenHash(k), now, p, TokenHash(k + 1)))
  {
    RungEffects(p, k);
    assert y.store.sessions[SOMEONE] == Rung(p, k);
    RefreshShape(p, y, SOMEONE, TokenHash(k), (k + 1) * p.coalesce, TokenHash(k + 1));
  }

  lemma RefreshUp(p: SessionPolicy, y: System, z: Store, k: nat)
    requires CanClimb(p) && !CapIsWide(p) && k + 1 < p.Cap() && AtRung(p, y, z, k)
    ensures var now := (k + 1) * p.coalesce;
            AtRung(p, AfterRefresh(p, y, TokenHash(k), now, TokenHash(k + 1)),
                   IdealRefresh(p, z, TokenHash(k), now, TokenHash(k + 1)), k + 1)
  {
    var now, h := (k + 1) * p.coalesce, TokenHash(k + 1);
    ClimbsOne(p, k);
    RungMints(p, y, z, k);
    IdealShape(p, z, k);
    RungReached(p, y, z, AfterRefresh(p, y, TokenHash(k), now, h), IdealRefresh(p, z, TokenHash(k), now, h), k,
                EntryRefresh(Rung(p, k), TokenHash(k), now, p, h));
  }

  lemma ClimbStarts(p: SessionPolicy)
    ensures var op := Create(SOMEONE, 0, "", 0, TokenHash(0));
            Valid(Initial(0), op) && AtRung(p, Step(p, Initial(0), op), IdealStep(p, NOBODY, op), 0)
  {
    var e := NewEntry(SOMEONE, 0, "", 0, p, TokenHash(0));
    assert e.gens == RungGens(p, 0);
    assert e == Rung(p, 0);
  }

  lemma ClimbStep(p: SessionPolicy, y: System, z: Store, k: nat, op: Op)
    requires CanClimb(p) && !CapIsWide(p) && 0 < k < p.Cap() && AtRung(p, y, z, k - 1)
    requires op == Refresh(TokenHash(k - 1), k * p.coalesce, TokenHash(k))
    ensures Valid(y, op) && AtRung(p, Step(p, y, op), IdealStep(p, z, op), k)
  {
    MoreTimes(k - 1, k, p.coalesce);
    RefreshUp(p, y, z, k - 1);
  }

  lemma {:induction false} ClimbsTo(p: SessionPolicy, k: nat)
    requires CanClimb(p) && !CapIsWide(p) && k < p.Cap()
    ensures SteadyRun(p, Initial(0), Climb(p, k))
    ensures AtRung(p, Run(p, Initial(0), Climb(p, k)), IdealRun(p, NOBODY, Climb(p, k)), k)
  {
    if k == 0 {
      RunSnoc(p, Initial(0), NOBODY, [], Create(SOMEONE, 0, "", 0, TokenHash(0)));
      assert [] + Climb(p, 0) == Climb(p, 0);
      ClimbStarts(p);
    } else {
      var op := Refresh(TokenHash(k - 1), k * p.coalesce, TokenHash(k));
      ClimbsTo(p, k - 1);
      RunSnoc(p, Initial(0), NOBODY, Climb(p, k - 1), op);
      ClimbStep(p, Run(p, Initial(0), Climb(p, k - 1)), IdealRun(p, NOBODY, Climb(p, k - 1)), k, op);
    }
  }

  // ---------------------------------------------------------------------------------------
  // The token that is forgotten
  // ---------------------------------------------------------------------------------------

  /** The first token's generation, once it has been cut off the front. */
  lemma CutOff(p: SessionPolicy, k: nat, e: Entry, now: Timestamp)
    requires e.gens == RungGens(p, k)[1..]
    ensures !Classify(e, TokenHash(0), now, p).Active?
  {
    RungTailDistinct(p, k);
    LostExactly(p, e, TokenHash(0), now);
  }

  /** And where nothing is ever cut off. */
  lemma StillThere(p: SessionPolicy)
    requires CanClimb(p) && !CapIsWide(p)
    ensures Classify(Rung(p, p.Cap()), TokenHash(0), p.Cap() * p.coalesce, p).Active?
  {
    var k := p.Cap();
    NoneRunsOut(p, k);
    RungDistinct(p, k);
    assert RungGens(p, k)[0].hash == TokenHash(0);
    FindsGen(RungGens(p, k), RungGens(p, k)[0]);
  }

  lemma Refuses(p: SessionPolicy, y: System, y': System, k: nat, now: Timestamp, newHash: TokenHash, r: Refreshed)
    requires MintedBy(y, y', SOMEONE, now, newHash, r) && newHash != TokenHash(0)
    requires TokenHash(0) in y.store.index && y.store.index[TokenHash(0)] == SOMEONE
    requires r.capped == [RungGens(p, k)[0]] && r.entry.gens == RungGens(p, k)[1..]
    ensures TokenHash(0) in y'.capped && !Authenticates(p, y'.store, TokenHash(0), now)
  {
    CutOff(p, k, r.entry, now);
    assert RungGens(p, k)[0] in r.capped;
  }

  /** One refresh more, and the first token is refused here but not there. */
  lemma FallsOff(p: SessionPolicy, y: System, z: Store)
    requires CanClimb(p) && !CapIsWide(p) && AtRung(p, y, z, p.Cap() - 1)
    ensures var k, now := p.Cap() - 1, p.Cap() * p.coalesce;
            var y' := AfterRefresh(p, y, TokenHash(k), now, TokenHash(k + 1));
            && TokenHash(0) in y'.capped && y'.clock == now
            && !Authenticates(p, y'.store, TokenHash(0), now)
            && Authenticates(p, IdealRefresh(p, z, TokenHash(k), now, TokenHash(k + 1)), TokenHash(0), now)
  {
    var k := p.Cap() - 1;
    var now, h := (k + 1) * p.coalesce, TokenHash(k + 1);
    ClimbsOff(p);
    RungMints(p, y, z, k);
    Refuses(p, y, AfterRefresh(p, y, TokenHash(k), now, h), k + 1, now, h,
            EntryRefresh(Rung(p, k), TokenHash(k), now, p, h));
    IdealShape(p, z, k);
    StillThere(p);
  }

  lemma RungTailDistinct(p: SessionPolicy, k: nat)
    ensures DistinctGens(RungGens(p, k)[1..])
  {
  }

  lemma NarrowCapForgets(p: SessionPolicy) returns (ops: seq<Op>, hash: TokenHash, now: Timestamp)
    requires CanClimb(p) && !CapIsWide(p)
    ensures SteadyRun(p, Initial(0), ops) && now == Run(p, Initial(0), ops).clock
    ensures hash in Run(p, Initial(0), ops).capped
    ensures !Authenticates(p, Run(p, Initial(0), ops).store, hash, now)
            && Authenticates(p, IdealRun(p, NOBODY, ops), hash, now)
  {
    var k := p.Cap() - 1;
    var op := Refresh(TokenHash(k), p.Cap() * p.coalesce, TokenHash(k + 1));
    ClimbsTo(p, k);
    RunSnoc(p, Initial(0), NOBODY, Climb(p, k), op);
    LastRung(p, k, Run(p, Initial(0), Climb(p, k)), IdealRun(p, NOBODY, Climb(p, k)), op);
    ops, hash, now := Climb(p, k) + [op], TokenHash(0), p.Cap() * p.coalesce;
  }

  /** The refresh that is one too many, as a step. */
  lemma LastRung(p: SessionPolicy, k: nat, y: System, z: Store, op: Op)
    requires CanClimb(p) && !CapIsWide(p) && k == p.Cap() - 1 && AtRung(p, y, z, k)
    requires op == Refresh(TokenHash(k), p.Cap() * p.coalesce, TokenHash(k + 1))
    ensures Valid(y, op) && Step(p, y, op).clock == op.now && TokenHash(0) in Step(p, y, op).capped
    ensures !Authenticates(p, Step(p, y, op).store, TokenHash(0), op.now)
    ensures Authenticates(p, IdealStep(p, z, op), TokenHash(0), op.now)
  {
    MoreTimes(k, k + 1, p.coalesce);
    FallsOff(p, y, z);
  }

  /** The map answers as one that forgets nothing. */
  ghost predicate ForgetsNothing(p: SessionPolicy) {
    forall start, ops, hash, now :: SteadyRun(p, Initial(start), ops) && now >= Run(p, Initial(start), ops).clock ==>
      (Authenticates(p, Run(p, Initial(start), ops).store, hash, now) <==>
       Authenticates(p, IdealRun(p, NOBODY, ops), hash, now))
  }

  /** Exactly when: over all runs without a restart, forgetting is unobservable if and only if the
      cap outlasts the windows. */
  lemma ForgetsNothingExactly(p: SessionPolicy)
    requires CanClimb(p)
    ensures ForgetsNothing(p) <==> CapIsWide(p)
  {
    if CapIsWide(p) {
      forall start, ops, hash, now | SteadyRun(p, Initial(start), ops) && now >= Run(p, Initial(start), ops).clock
        ensures Authenticates(p, Run(p, Initial(start), ops).store, hash, now)
           <==> Authenticates(p, IdealRun(p, NOBODY, ops), hash, now)
      {
        NeverForgets(p, start, ops, hash, now);
      }
    } else {
      var ops, hash, now := NarrowCapForgets(p);
    }
  }
}
