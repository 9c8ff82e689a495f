/** The map as it would be if nothing were ever reaped, capped, retired or collected: the machine
    the real one claims to be indistinguishable from, and how an entry of one mirrors the other's. */
module SessionIdeal {
  import opened Prelude
  import opened Custody
  import opened SessionModel
  import opened SessionStore
  import opened SessionEntryFacts
  import opened SessionRestart

  predicate Refreshable(v: Resolution) {
    v.Active? || v.StaleRefreshable?
  }

  /** A refresh that supersedes without forgetting. */
  function IdealEntryRefresh(e: Entry, hash: TokenHash, now: Timestamp, p: SessionPolicy,
                             newHash: TokenHash): (Entry, RefreshResult)
    requires e.gens != []
  {
    match Classify(e, hash, now, p)
    case Unknown => (e, Refused(DeniedUnknown))
    case Retired(sid, genNo) => (e, Refused(DeniedRetired(sid, genNo)))
    case HardExpired(sid, reason) => (e, Refused(DeniedExpired(sid, reason)))
    case _ =>
      if Coalesces(e, now, p) then (Slide(e, now, p), Issued(e.currentToken.value, Meta(Slide(e, now, p)), false))
      else
        var grown := Slide(Grown(e, now, p, newHash), now, p);
        (grown, Issued(newHash, Meta(grown), true))
  }

  function IdealRefresh(p: SessionPolicy, s: Store, hash: TokenHash, now: Timestamp, newHash: TokenHash): Store {
    if hash in s.index && s.index[hash] in s.sessions && s.sessions[s.index[hash]].gens != [] then
      var sid := s.index[hash];
      var (e, result) := IdealEntryRefresh(s.sessions[sid], hash, now, p, newHash);
      Store(s.sessions[sid := e], if result.Issued? && result.rotated then s.index[newHash := sid] else s.index)
    else s
  }

  function IdealStep(p: SessionPolicy, s: Store, op: Op): Store {
    match op
    case Create(sid, custody, sub, now, newHash) =>
      Store(s.sessions[sid := NewEntry(sid, custody, sub, now, p, newHash)], s.index[newHash := sid])
    case Refresh(hash, now, newHash) => IdealRefresh(p, s, hash, now, newHash)
    case Tombstone(sid, now) =>
      if sid in s.sessions && s.sessions[sid].status.Alive?
      then s.(sessions := s.sessions[sid := Buried(s.sessions[sid], now)])
      else s
    case SetCustody(custody, status) =>
      s.(sessions := map sid | sid in s.sessions :: WithStatus(s.sessions[sid], custody, status))
    case _ => s
  }

  function IdealRun(p: SessionPolicy, s: Store, ops: seq<Op>): Store
    decreases |ops|
  {
    if ops == [] then s else IdealRun(p, IdealStep(p, s, ops[0]), ops[1..])
  }

  const NOBODY := Store(map[], map[])

  // ---------------------------------------------------------------------------------------
  // Rotation is never faster than the coalescing window
  // ---------------------------------------------------------------------------------------

  predicate Spaced(p: SessionPolicy, gens: seq<Generation>) {
    && (forall i :: 0 <= i < |gens| ==> gens[i].activeUntil == gens[i].createdAt + p.genTtl)
    && (forall i, j :: 0 <= i < j < |gens| ==> gens[j].createdAt >= gens[i].createdAt + (j - i) * p.coalesce)
    && (forall i, j :: 0 <= i < j < |gens| ==>
          gens[i].supersededAt.Some? && gens[i].supersededAt.value <= gens[j].createdAt)
  }

  /** An entry of a map that was never restarted. */
  predicate Tidy(p: SessionPolicy, clock: Timestamp, e: Entry) {
    && e.gens != [] && Spaced(p, e.gens) && e.gens[|e.gens| - 1].createdAt <= clock
    && (e.status.Alive? ==> e.currentToken.Some?)
  }

  /** The cap and the two windows: the oldest of more generations than the cap allows has run out
      by the time the newest is minted. */
  predicate CapIsWide(p: SessionPolicy) {
    Min(p.genTtl, p.coalesce + p.grace) <= p.Cap() * p.coalesce
  }

  /** The documented bound is enough. */
  lemma GraceBoundIsEnough(p: SessionPolicy)
    requires p.grace <= (p.Cap() - 1) * p.coalesce
    ensures CapIsWide(p)
  {
  }

  lemma MoreTimes(a: nat, b: nat, c: nat)
    requires a <= b
    ensures a * c <= b * c
  {
  }

  lemma SpacedPicks(p: SessionPolicy, gens: seq<Generation>, at: seq<nat>, sub: seq<Generation>)
    requires Picks(gens, at, sub) && Spaced(p, gens)
    ensures Spaced(p, sub)
  {
    forall i, j | 0 <= i < j < |sub| ensures sub[j].createdAt >= sub[i].createdAt + (j - i) * p.coalesce {
      PicksSpread(at, |gens|, i, j);
      assert gens[at[j]].createdAt >= gens[at[i]].createdAt + (at[j] - at[i]) * p.coalesce;
      MoreTimes(j - i, at[j] - at[i], p.coalesce);
    }
  }

  lemma {:induction false} PicksSpread(at: seq<nat>, bound: nat, i: nat, j: nat)
    requires Rising(at, bound) && i <= j < |at|
    ensures at[j] - at[i] >= j - i
    decreases j - i
  {
    if i < j {
      PicksSpread(at, bound, i, j - 1);
    }
  }

  lemma KeptIsSpaced(p: SessionPolicy, e: Entry, now: Timestamp)
    requires Ladder(e.gens, e.currentGen) && DistinctGens(e.gens) && Spaced(p, e.gens)
    ensures Spaced(p, Kept(e.gens, e.currentGen, now, p.grace))
  {
    ByPosition(e.gens, e.currentGen, now, p.grace);
    SpacedPicks(p, e.gens, Positions(e.gens, e.currentGen, now, p.grace, false),
                Kept(e.gens, e.currentGen, now, p.grace));
  }

  /** A front generation with more than a cap's worth behind it is past its window. */
  lemma FrontHasRunOut(p: SessionPolicy, kept: seq<Generation>, now: Timestamp)
    requires Spaced(p, kept) && CapIsWide(p) && |kept| > p.Cap() && now >= kept[|kept| - 1].createdAt
    ensures now >= kept[0].ValidUntil(p.grace)
  {
    var last := |kept| - 1;
    MoreTimes(p.Cap(), last, p.coalesce);
    assert kept[last].createdAt >= kept[0].createdAt + (last - 0) * p.coalesce;
    if p.genTtl > p.Cap() * p.coalesce {
      var at := kept[0].supersededAt.value;
      assert at <= kept[1].createdAt;
      assert (p.Cap() - 1) * p.coalesce == p.Cap() * p.coalesce - p.coalesce;
      if last > 1 {
        assert kept[last].createdAt >= kept[1].createdAt + (last - 1) * p.coalesce;
        MoreTimes(p.Cap() - 1, last - 1, p.coalesce);
      }
    }
  }

  /** So the cap evicts nothing that has not expired. */
  lemma CapEvictsNothing(p: SessionPolicy, e: Entry, now: Timestamp)
    requires Ladder(e.gens, e.currentGen) && DistinctGens(e.gens) && Spaced(p, e.gens) && CapIsWide(p)
    requires now >= e.gens[|e.gens| - 1].createdAt
    ensures Over(e, now, p) == 0 && Reap(e, now, p).capped == []
    ensures Reap(e, now, p).entry.gens == Kept(e.gens, e.currentGen, now, p.grace)
  {
    var kept := Kept(e.gens, e.currentGen, now, p.grace);
    KeptLadder(e, now, p.grace);
    KeptIsSpaced(p, e, now);
    if |kept| > p.Cap() {
      assert kept[0] in kept && kept[0].genNo < kept[|kept| - 1].genNo;
      KeptOrDropped(e.gens, e.currentGen, now, p.grace);
      FrontHasRunOut(p, kept, now);
    }
  }

  lemma GrownIsSpaced(p: SessionPolicy, e: Entry, now: Timestamp, newHash: TokenHash)
    requires e.gens != [] && Spaced(p, e.gens) && now >= e.gens[|e.gens| - 1].createdAt + p.coalesce
    ensures Spaced(p, Grown(e, now, p, newHash).gens)
  {
    var gens, n := Grown(e, now, p, newHash).gens, |e.gens|;
    forall i | 0 <= i < n ensures gens[i].createdAt == e.gens[i].createdAt {
    }
    forall i, j | 0 <= i < j < |gens| ensures gens[j].createdAt >= gens[i].createdAt + (j - i) * p.coalesce {
      if j < n {
        assert e.gens[j].createdAt >= e.gens[i].createdAt + (j - i) * p.coalesce;
      } else {
        assert (n - i) * p.coalesce == (n - 1 - i) * p.coalesce + p.coalesce;
        if i < n - 1 {
          assert e.gens[n - 1].createdAt >= e.gens[i].createdAt + (n - 1 - i) * p.coalesce;
        }
      }
    }
    forall i, j | 0 <= i < j < |gens|
      ensures gens[i].supersededAt.Some? && gens[i].supersededAt.value <= gens[j].createdAt
    {
      if j < n {
        assert e.gens[i].supersededAt.value <= e.gens[j].createdAt;
      } else if i < n - 1 {
        assert e.gens[i].supersededAt.value <= e.gens[n - 1].createdAt;
      }
    }
  }

  // ---------------------------------------------------------------------------------------
  // How an entry mirrors its ideal
  // ---------------------------------------------------------------------------------------

  /** `f` is `e` with every generation it ever had: those `e` lacks have run out. */
  predicate Mirrors(p: SessionPolicy, clock: Timestamp, e: Entry, f: Entry) {
    && f.(gens := e.gens, retired := e.retired) == e && f.retired == []
    && Ladder(f.gens, f.currentGen) && DistinctGens(f.gens)
    && e.gens != [] && e.gens[|e.gens| - 1] == f.gens[|f.gens| - 1]
    && (forall g :: g in e.gens ==> g in f.gens)
    && (forall g :: g in f.gens && g !in e.gens ==> clock >= g.ValidUntil(p.grace))
  }

  /** A generation that can still do something is in both or in neither. */
  lemma MirrorsFind(p: SessionPolicy, clock: Timestamp, e: Entry, f: Entry, hash: TokenHash)
    requires DistinctGens(e.gens) && Mirrors(p, clock, e, f)
    ensures var g, h := FindGen(e.gens, hash), FindGen(f.gens, hash);
            (g.Some? ==> h == g)
            && (g.None? && h.Some? ==> clock >= h.value.ValidUntil(p.grace) && h.value.genNo != f.currentGen)
  {
    var g := FindGen(e.gens, hash);
    if g.Some? {
      FindsGen(f.gens, g.value);
    } else if FindGen(f.gens, hash).Some? {
      MissingGen(p, e, f, FindGen(f.gens, hash).value);
    }
  }

  /** The two give the same answer whenever either would let the token do anything. */
  lemma MirrorsAgree(p: SessionPolicy, clock: Timestamp, e: Entry, f: Entry, hash: TokenHash, now: Timestamp)
    requires DistinctGens(e.gens) && Mirrors(p, clock, e, f) && clock <= now
    ensures var v, w := Classify(e, hash, now, p), Classify(f, hash, now, p);
            (Refreshable(v) || Refreshable(w)) ==> v == w
  {
    MirrorsFind(p, clock, e, f, hash);
    assert SessionExpiry(e, now, p) == SessionExpiry(f, now, p);
  }

  /** A generation the entry let go is not the current one, and its hash names no other. */
  lemma MissingGen(p: SessionPolicy, e: Entry, f: Entry, g: Generation)
    requires Ladder(f.gens, f.currentGen) && DistinctGens(f.gens)
    requires e.gens != [] && e.gens[|e.gens| - 1] == f.gens[|f.gens| - 1] && (forall x :: x in e.gens ==> x in f.gens)
    requires g in f.gens && g !in e.gens
    ensures g.genNo != f.currentGen && FindGen(e.gens, g.hash).None?
  {
    var i :| 0 <= i < |f.gens| && f.gens[i] == g;
    assert f.gens[|f.gens| - 1] in e.gens;
    if FindGen(e.gens, g.hash).Some? {
      var x := FindGen(e.gens, g.hash).value;
      FindsGen(f.gens, g);
      FindsGen(f.gens, x);
      assert false;
    }
  }

  lemma MirrorsLater(p: SessionPolicy, clock: Timestamp, later: Timestamp, e: Entry, f: Entry)
    requires Mirrors(p, clock, e, f) && clock <= later
    ensures Mirrors(p, later, e, f)
  {
  }

  /** Reaping keeps the mirror, so long as the cap evicts nothing. */
  lemma ReapMirrors(p: SessionPolicy, clock: Timestamp, e: Entry, f: Entry, now: Timestamp)
    requires EntryOk(p, e) && Mirrors(p, clock, e, f) && clock <= now && Reap(e, now, p).capped == []
    ensures Mirrors(p, now, Reap(e, now, p).entry, f)
  {
    var e' := Reap(e, now, p).entry;
    ReapedGens(e, now, p);
    StaysOrLeaves(e, now, p);
    forall g | g in f.gens && g !in e'.gens ensures now >= g.ValidUntil(p.grace) {
      if g in e.gens {
        LeavingWasExpiredOrCapped(p, e, now, g);
      }
    }
  }

  lemma InGrown(e: Entry, now: Timestamp, p: SessionPolicy, newHash: TokenHash, g: Generation)
    requires Ladder(e.gens, e.currentGen) && DistinctGens(e.gens)
    ensures g in Grown(e, now, p, newHash).gens
       <==> || g == NewGeneration(e.currentGen + 1, newHash, now, p)
            || g == e.gens[|e.gens| - 1].(supersededAt := Some(now))
            || (g in e.gens && g != e.gens[|e.gens| - 1])
  {
    var last, gens := |e.gens| - 1, Grown(e, now, p, newHash).gens;
    assert gens[last] in gens && gens[last + 1] in gens;
    if g in e.gens && g != e.gens[last] {
      var i :| 0 <= i < |e.gens| && e.gens[i] == g;
      assert gens[i] == g;
    }
    if g in gens {
      var i :| 0 <= i < |gens| && gens[i] == g;
      if i < last {
        assert e.gens[i] == g && e.gens[i].genNo < e.gens[last].genNo;
      }
    }
  }

  /** Superseding keeps the mirror. */
  lemma GrownMirrors(p: SessionPolicy, clock: Timestamp, e: Entry, f: Entry, now: Timestamp, newHash: TokenHash)
    requires EntryOk(p, e) && Mirrors(p, clock, e, f) && clock <= now
    requires newHash !in HashSet(f.gens)
    ensures Mirrors(p, now, Grown(e, now, p, newHash), Grown(f, now, p, newHash))
  {
    var e', f' := Grown(e, now, p, newHash), Grown(f, now, p, newHash);
    GrownLadder(f, now, p, newHash);
    GrownDistinct(f.gens, f'.gens, newHash);
    forall g
      ensures (g in e'.gens ==> g in f'.gens) && (g in f'.gens && g !in e'.gens ==> now >= g.ValidUntil(p.grace)) {
      InGrown(e, now, p, newHash, g);
      InGrown(f, now, p, newHash, g);
    }
  }

  /** A mint in a tidy entry keeps it tidy, evicts nothing, and mirrors the ideal. */
  lemma MintMirrors(p: SessionPolicy, clock: Timestamp, e: Entry, f: Entry, now: Timestamp, newHash: TokenHash)
    requires EntryOk(p, e) && Mirrors(p, clock, e, f) && Tidy(p, clock, e) && CapIsWide(p) && clock <= now
    requires newHash !in HashSet(f.gens) && newHash !in AllHashes(e) && e.status.Alive? && !Coalesces(e, now, p)
    ensures var m := Mint(e, now, p, newHash);
            m.capped == [] && Tidy(p, now, m.entry) && Mirrors(p, now, m.entry, Grown(f, now, p, newHash))
  {
    var grown := Grown(e, now, p, newHash);
    GrownOk(p, e, now, newHash);
    GrownIsSpaced(p, e, now, newHash);
    CapEvictsNothing(p, grown, now);
    KeptIsSpaced(p, grown, now);
    MintKeepsCurrent(e, now, p, newHash);
    GrownMirrors(p, clock, e, f, now, newHash);
    ReapMirrors(p, now, grown, Grown(f, now, p, newHash), now);
  }

  /** Moving the idle expiry, the status or the custody health of both keeps the mirror. */
  lemma SlideMirrors(p: SessionPolicy, clock: Timestamp, e: Entry, f: Entry, now: Timestamp)
    requires Mirrors(p, clock, e, f)
    ensures Mirrors(p, clock, Slide(e, now, p), Slide(f, now, p))
  {
  }

  lemma BuriedMirrors(p: SessionPolicy, clock: Timestamp, e: Entry, f: Entry, now: Timestamp)
    requires Mirrors(p, clock, e, f) && clock <= now
    ensures Mirrors(p, now, Buried(e, now), Buried(f, now))
  {
  }

  lemma StatusMirrors(p: SessionPolicy, clock: Timestamp, e: Entry, f: Entry, custody: CustodyId, status: CustodyStatus)
    requires Mirrors(p, clock, e, f)
    ensures Mirrors(p, clock, WithStatus(e, custody, status), WithStatus(f, custody, status))
  {
  }

  /** What `refresh` does under the lock on verdict `v`, case by case. */
  predicate RealCase(e: Entry, v: Resolution, now: Timestamp, p: SessionPolicy, newHash: TokenHash, r: Refreshed)
    requires e.gens != []
  {
    if !Refreshable(v) then r.result.Refused? && r.entry == e && r.capped == []
    else if Coalesces(e, now, p) then
      var slid := Slide(e, now, p);
      r.entry == slid && r.capped == [] && r.result == Issued(e.currentToken.value, Meta(slid), false)
    else
      var m := Mint(e, now, p, newHash);
      r.entry == Slide(m.entry, now, p) && r.capped == m.capped
      && m.entry.gens != [] && r.result == Issued(newHash, Meta(Slide(m.entry, now, p)), true)
  }

  lemma RefreshCases(e: Entry, hash: TokenHash, now: Timestamp, p: SessionPolicy, newHash: TokenHash)
    requires e.gens != []
    ensures RealCase(e, Classify(e, hash, now, p), now, p, newHash, EntryRefresh(e, hash, now, p, newHash))
  {
    MintKeepsCurrent(e, now, p, newHash);
  }

  /** And what the ideal refresh does. */
  predicate IdealCase(f: Entry, w: Resolution, now: Timestamp, p: SessionPolicy, newHash: TokenHash, f': Entry,
                      answer: RefreshResult)
    requires f.gens != []
  {
    if !Refreshable(w) then f' == f && answer.Refused?
    else if Coalesces(f, now, p) then
      f' == Slide(f, now, p) && answer == Issued(f.currentToken.value, Meta(f'), false)
    else
      f' == Slide(Grown(f, now, p, newHash), now, p) && answer == Issued(newHash, Meta(f'), true)
  }

  lemma IdealRefreshCases(f: Entry, hash: TokenHash, now: Timestamp, p: SessionPolicy, newHash: TokenHash)
    requires f.gens != []
    ensures IdealCase(f, Classify(f, hash, now, p), now, p, newHash,
                      IdealEntryRefresh(f, hash, now, p, newHash).0, IdealEntryRefresh(f, hash, now, p, newHash).1)
  {
  }

  lemma MetaMirrors(p: SessionPolicy, clock: Timestamp, e: Entry, f: Entry)
    requires Mirrors(p, clock, e, f)
    ensures Meta(e) == Meta(f)
  {
  }

  lemma CoalescedMirrors(p: SessionPolicy, e: Entry, f: Entry, now: Timestamp)
    requires Mirrors(p, now, e, f) && Tidy(p, now, e)
    ensures Coalesces(f, now, p) == Coalesces(e, now, p) && f.currentToken == e.currentToken
    ensures Mirrors(p, now, Slide(e, now, p), Slide(f, now, p)) && Tidy(p, now, Slide(e, now, p))
    ensures Meta(Slide(e, now, p)) == Meta(Slide(f, now, p))
  {
    SlideMirrors(p, now, e, f, now);
    MetaMirrors(p, now, Slide(e, now, p), Slide(f, now, p));
  }

  /** The same credential and the same news of the session, or refused on both sides. */
  lemma CasesMirror(p: SessionPolicy, clock: Timestamp, e: Entry, f: Entry, v: Resolution, w: Resolution,
                    now: Timestamp, newHash: TokenHash, r: Refreshed, f': Entry, answer: RefreshResult)
    requires EntryOk(p, e) && Mirrors(p, clock, e, f) && Tidy(p, clock, e) && CapIsWide(p) && clock <= now
    requires newHash !in HashSet(f.gens) && newHash !in AllHashes(e)
    requires (Refreshable(v) || Refreshable(w) ==> v == w) && (Refreshable(v) ==> e.status.Alive?)
    requires RealCase(e, v, now, p, newHash, r) && IdealCase(f, w, now, p, newHash, f', answer)
    ensures r.capped == [] && Tidy(p, now, r.entry) && Mirrors(p, now, r.entry, f')
    ensures if r.result.Issued? then answer == r.result else answer.Refused? && f' == f && r.entry == e
  {
    MirrorsLater(p, clock, now, e, f);
    CoalescedMirrors(p, e, f, now);
    if Refreshable(v) && !Coalesces(e, now, p) {
      MintMirrors(p, clock, e, f, now, newHash);
      CoalescedMirrors(p, Mint(e, now, p, newHash).entry, Grown(f, now, p, newHash), now);
    }
  }

  /** Any refresh of an entry and of its ideal. */
  lemma RefreshMirrors(p: SessionPolicy, clock: Timestamp, e: Entry, f: Entry, hash: TokenHash, now: Timestamp,
                       newHash: TokenHash, r: Refreshed, f': Entry, answer: RefreshResult)
    requires EntryOk(p, e) && Mirrors(p, clock, e, f) && Tidy(p, clock, e) && CapIsWide(p) && clock <= now
    requires newHash !in HashSet(f.gens) && newHash !in AllHashes(e)
    requires r == EntryRefresh(e, hash, now, p, newHash) && (f', answer) == IdealEntryRefresh(f, hash, now, p, newHash)
    ensures r.capped == [] && Tidy(p, now, r.entry) && Mirrors(p, now, r.entry, f')
    ensures if r.result.Issued? then answer == r.result else answer.Refused? && f' == f && r.entry == e
  {
    MirrorsAgree(p, clock, e, f, hash, now);
    RefreshCases(e, hash, now, p, newHash);
    IdealRefreshCases(f, hash, now, p, newHash);
    CasesMirror(p, clock, e, f, Classify(e, hash, now, p), Classify(f, hash, now, p), now, newHash, r, f', answer);
  }
}
