/** The map at the granularity of its locks: an operation changes an entry under the entry's lock,
    lets go, and only then brings the index up to date, one key at a time, while others run. */
module SessionConcurrent {
  import opened Prelude
  import opened Custody
  import opened SessionModel
  import opened SessionStore
  import opened SessionEntryFacts
  import opened SessionInvariant
  import opened SessionRun
  import opened SessionSteps
  import opened SessionRestart
  import opened SessionIdeal

  type Thread = nat

  /** What a thread still owes the index. */
  datatype IndexOp = Put(hash: TokenHash, sid: Sid) | Del(hash: TokenHash)

  /** `owner` remembers the session every hash was minted for; `sids` every session ever created. */
  datatype World = World(
    sessions: map<Sid, Entry>,
    index: map<TokenHash, Sid>,
    queues: map<Thread, seq<IndexOp>>,
    owner: map<TokenHash, Sid>,
    sids: set<Sid>)
  {
    function Queue(t: Thread): seq<IndexOp> {
      if t in queues then queues[t] else []
    }
  }

  function Dels(hashes: seq<TokenHash>): seq<IndexOp> {
    seq(|hashes|, i requires 0 <= i < |hashes| => Del(hashes[i]))
  }

  /** The index half of `apply`, in its order. */
  function Owed(sid: Sid, effects: Effects): seq<IndexOp> {
    (if effects.added.Some? then [Put(effects.added.value.hash, sid)] else []) + Dels(effects.purged)
  }

  /** Steps under one lock. Nothing is assumed of the clock readings, of which session a thread
      found in the index, or of when a sweep decided to remove a session. */
  datatype Micro =
    | Insert(t: Thread, sid: Sid, custody: CustodyId, sub: string, now: Timestamp, newHash: TokenHash)
    | Refreshing(t: Thread, sid: Sid, hash: TokenHash, now: Timestamp, newHash: TokenHash)
    | Reaping(t: Thread, sid: Sid, now: Timestamp)
    | Bury(sid: Sid, now: Timestamp)
    | SetStatus(sid: Sid, custody: CustodyId, status: CustodyStatus)
    | Remove(t: Thread, sid: Sid)
    | Settles(t: Thread)

  /** A thread settles what it owes before it starts anything else. */
  predicate Enabled(w: World, m: Micro) {
    match m
    case Insert(t, sid, _, _, _, newHash) => w.Queue(t) == [] && sid !in w.sids && newHash !in w.owner
    case Refreshing(t, sid, _, _, newHash) => w.Queue(t) == [] && sid in w.sessions && newHash !in w.owner
    case Reaping(t, sid, _) => w.Queue(t) == [] && sid in w.sessions
    case Bury(sid, _) => sid in w.sessions
    case SetStatus(sid, _, _) => sid in w.sessions
    case Remove(t, sid) => w.Queue(t) == [] && sid in w.sessions
    case Settles(t) => w.Queue(t) != []
  }

  /** An entry replaced under its lock, and what its thread owes the index for it. */
  function Locked(w: World, t: Thread, sid: Sid, e: Entry, effects: Effects): World {
    w.(sessions := w.sessions[sid := e],
       queues := w.queues[t := Owed(sid, effects)],
       owner := if effects.added.Some? then w.owner[effects.added.value.hash := sid] else w.owner)
  }

  function Settle(index: map<TokenHash, Sid>, op: IndexOp): map<TokenHash, Sid> {
    match op
    case Put(hash, sid) => index[hash := sid]
    case Del(hash) => index - {hash}
  }

  function Advance(p: SessionPolicy, w: World, m: Micro): World
    requires Enabled(w, m)
  {
    match m
    case Insert(t, sid, custody, sub, now, newHash) =>
      var e := NewEntry(sid, custody, sub, now, p, newHash);
      Locked(w, t, sid, e, Effects(Some(e.gens[0]), None, [])).(sids := w.sids + {sid})
    case Refreshing(t, sid, hash, now, newHash) =>
      if w.sessions[sid].gens == [] then w
      else
        var r := EntryRefresh(w.sessions[sid], hash, now, p, newHash);
        Locked(w, t, sid, r.entry, r.effects)
    case Reaping(t, sid, now) =>
      var r := Reap(w.sessions[sid], now, p);
      Locked(w, t, sid, r.entry, Effects(None, None, r.purged))
    case Bury(sid, now) => w.(sessions := w.sessions[sid := Buried(w.sessions[sid], now)])
    case SetStatus(sid, custody, status) =>
      w.(sessions := w.sessions[sid := WithStatus(w.sessions[sid], custody, status)])
    case Remove(t, sid) =>
      var e := w.sessions[sid];
      w.(sessions := w.sessions - {sid}, queues := w.queues[t := Dels(Hashes(Marks(e.gens) + e.retired))])
    case Settles(t) =>
      w.(index := Settle(w.index, w.Queue(t)[0]), queues := w.queues[t := w.Queue(t)[1..]])
  }

  // ---------------------------------------------------------------------------------------
  // What every interleaving keeps
  // ---------------------------------------------------------------------------------------

  /** An entry in memory claims the hash. */
  predicate Claimed(sessions: map<Sid, Entry>, owner: map<TokenHash, Sid>, hash: TokenHash) {
    hash in owner && owner[hash] in sessions && hash in AllHashes(sessions[owner[hash]])
  }

  /** The index points a hash only at the session it was minted for. */
  ghost predicate Routes(w: World) {
    forall h :: h in w.index ==> h in w.owner && w.owner[h] == w.index[h]
  }

  /** What is owed is harmless: a put goes to the owner, a delete takes no claimed hash. */
  predicate Harmless(w: World, op: IndexOp) {
    match op
    case Put(hash, sid) => hash in w.owner && w.owner[hash] == sid
    case Del(hash) => hash in w.owner && !Claimed(w.sessions, w.owner, hash)
  }

  ghost predicate QueuesHarmless(w: World) {
    forall t, op {:trigger op in w.Queue(t)} :: op in w.Queue(t) ==> Harmless(w, op)
  }

  /** Some thread is about to index the hash. */
  ghost predicate InFlight(w: World, hash: TokenHash) {
    hash in w.owner && exists t: Thread :: Put(hash, w.owner[hash]) in w.Queue(t)
  }

  /** Every claimed hash is the session's own, and is indexed or about to be. */
  ghost predicate Reached(w: World, sid: Sid, hash: TokenHash) {
    hash in w.owner && w.owner[hash] == sid && (hash in w.index || InFlight(w, hash))
  }

  ghost predicate Claims(p: SessionPolicy, w: World, sid: Sid)
    requires sid in w.sessions
  {
    EntryOk(p, w.sessions[sid]) && forall h :: h in AllHashes(w.sessions[sid]) ==> Reached(w, sid, h)
  }

  ghost predicate AllClaims(p: SessionPolicy, w: World) {
    forall sid {:trigger Claims(p, w, sid)} :: sid in w.sessions ==> Claims(p, w, sid)
  }

  ghost predicate Safe(p: SessionPolicy, w: World) {
    && Routes(w) && QueuesHarmless(w) && AllClaims(p, w)
    && w.sessions.Keys <= w.sids && (forall h :: h in w.owner ==> w.owner[h] in w.sids)
  }

  /** How a locked change to an entry may change its hashes. */
  predicate Fits(w: World, sid: Sid, held: set<TokenHash>, e: Entry, effects: Effects) {
    var added := if effects.added.Some? then {effects.added.value.hash} else {};
    var gone := set h | h in effects.purged;
    && added !! w.owner.Keys && gone <= held && AllHashes(e) == held + added - gone
  }

  lemma InOwed(sid: Sid, effects: Effects, op: IndexOp)
    ensures op in Owed(sid, effects)
       <==> || (effects.added.Some? && op == Put(effects.added.value.hash, sid))
            || (op.Del? && op.hash in effects.purged)
  {
    InDels(effects.purged, op);
  }

  lemma InDels(hashes: seq<TokenHash>, op: IndexOp)
    ensures op in Dels(hashes) <==> op.Del? && op.hash in hashes
  {
    if op.Del? && op.hash in hashes {
      var i :| 0 <= i < |hashes| && hashes[i] == op.hash;
      assert Dels(hashes)[i] == op;
    }
  }

  /** The hashes session `sid` claims so far. */
  function HeldBy(w: World, sid: Sid): set<TokenHash> {
    if sid in w.sessions then AllHashes(w.sessions[sid]) else {}
  }

  lemma HeldAreOwned(p: SessionPolicy, w: World, sid: Sid, hash: TokenHash)
    requires AllClaims(p, w) && hash in HeldBy(w, sid)
    ensures sid in w.sessions && Reached(w, sid, hash)
  {
    assert Claims(p, w, sid);
  }

  /** What was harmless stays harmless under a locked change. */
  lemma LockedHarmless(p: SessionPolicy, w: World, t: Thread, sid: Sid, e: Entry, effects: Effects, u: Thread,
                       op: IndexOp)
    requires QueuesHarmless(w) && AllClaims(p, w) && w.Queue(t) == [] && Fits(w, sid, HeldBy(w, sid), e, effects)
    requires op in Locked(w, t, sid, e, effects).Queue(u)
    ensures Harmless(Locked(w, t, sid, e, effects), op)
  {
    if u == t {
      InOwed(sid, effects, op);
      if op.Del? {
        HeldAreOwned(p, w, sid, op.hash);
      }
    } else {
      assert op in w.Queue(u) && Harmless(w, op);
    }
  }

  lemma LockedReaches(p: SessionPolicy, w: World, t: Thread, sid: Sid, e: Entry, effects: Effects, x: Sid,
                      hash: TokenHash)
    requires w.Queue(t) == [] && Fits(w, sid, HeldBy(w, sid), e, effects) && Reached(w, x, hash)
    ensures Reached(Locked(w, t, sid, e, effects), x, hash)
  {
    if hash !in w.index {
      var u: Thread :| Put(hash, w.owner[hash]) in w.Queue(u);
      assert Put(hash, w.owner[hash]) in Locked(w, t, sid, e, effects).Queue(u);
    }
  }

  lemma LockedClaims(p: SessionPolicy, w: World, t: Thread, sid: Sid, e: Entry, effects: Effects, x: Sid)
    requires AllClaims(p, w) && w.Queue(t) == [] && Fits(w, sid, HeldBy(w, sid), e, effects) && EntryOk(p, e)
    requires x == sid || x in w.sessions
    ensures Claims(p, Locked(w, t, sid, e, effects), x)
  {
    var w' := Locked(w, t, sid, e, effects);
    assert x in w.sessions ==> Claims(p, w, x);
    forall h | h in AllHashes(w'.sessions[x]) ensures Reached(w', x, h) {
      if h in HeldBy(w, x) {
        LockedReaches(p, w, t, sid, e, effects, x, h);
      } else {
        InOwed(sid, effects, Put(h, sid));
        assert Put(h, sid) in w'.Queue(t);
      }
    }
  }

  lemma LockedKeeps(p: SessionPolicy, w: World, t: Thread, sid: Sid, e: Entry, effects: Effects)
    requires Safe(p, w) && w.Queue(t) == [] && Fits(w, sid, HeldBy(w, sid), e, effects) && EntryOk(p, e)
             && sid in w.sids
    ensures Safe(p, Locked(w, t, sid, e, effects))
  {
    var w' := Locked(w, t, sid, e, effects);
    forall u, op | op in w'.Queue(u) ensures Harmless(w', op) {
      LockedHarmless(p, w, t, sid, e, effects, u, op);
    }
    forall x | x in w'.sessions ensures Claims(p, w', x) {
      LockedClaims(p, w, t, sid, e, effects, x);
    }
  }

  /** An entry changed without any generation gained or lost. */
  lemma SameHashesKeep(p: SessionPolicy, w: World, sid: Sid, e: Entry)
    requires Safe(p, w) && sid in w.sessions && AllHashes(e) == AllHashes(w.sessions[sid]) && EntryOk(p, e)
    ensures Safe(p, w.(sessions := w.sessions[sid := e]))
  {
    var w' := w.(sessions := w.sessions[sid := e]);
    forall u, op | op in w'.Queue(u) ensures Harmless(w', op) {
      assert op in w.Queue(u) && Harmless(w, op);
    }
    forall x | x in w'.sessions ensures Claims(p, w', x) {
      assert Claims(p, w, x);
      forall h | h in AllHashes(w'.sessions[x]) ensures Reached(w', x, h) {
        StillReached(w, w', x, h);
      }
    }
  }

  lemma StillReached(w: World, w': World, x: Sid, hash: TokenHash)
    requires Reached(w, x, hash) && w'.owner == w.owner && w'.index == w.index
    requires forall t: Thread, op :: op in w.Queue(t) ==> op in w'.Queue(t)
    ensures Reached(w', x, hash)
  {
    if hash !in w.index {
      var u: Thread :| Put(hash, w.owner[hash]) in w.Queue(u);
      assert Put(hash, w.owner[hash]) in w'.Queue(u);
    }
  }

  lemma InsertKeeps(p: SessionPolicy, w: World, m: Micro)
    requires Safe(p, w) && Enabled(w, m) && m.Insert?
    ensures Safe(p, Advance(p, w, m))
  {
    var e := NewEntry(m.sid, m.custody, m.sub, m.now, p, m.newHash);
    var wider := w.(sids := w.sids + {m.sid});
    assert e.gens[0] in e.gens;
    assert AllHashes(e) == {m.newHash};
    forall u, op | op in wider.Queue(u) ensures Harmless(wider, op) {
      assert op in w.Queue(u) && Harmless(w, op);
    }
    forall x | x in wider.sessions ensures Claims(p, wider, x) {
      assert Claims(p, w, x);
      forall h | h in AllHashes(wider.sessions[x]) ensures Reached(wider, x, h) {
        StillReached(w, wider, x, h);
      }
    }
    LockedKeeps(p, wider, m.t, m.sid, e, Effects(Some(e.gens[0]), None, []));
  }

  /** What a refresh does to an entry's hashes. */
  lemma RefreshFits(p: SessionPolicy, w: World, sid: Sid, hash: TokenHash, now: Timestamp, newHash: TokenHash)
    requires AllClaims(p, w) && sid in w.sessions && newHash !in w.owner
    ensures w.sessions[sid].gens != []
    ensures var r := EntryRefresh(w.sessions[sid], hash, now, p, newHash);
            EntryOk(p, r.entry) && Fits(w, sid, HeldBy(w, sid), r.entry, r.effects)
  {
    var e := w.sessions[sid];
    assert Claims(p, w, sid);
    assert newHash !in AllHashes(e);
    MintFacts(p, e, now, newHash);
    RefreshCases(e, hash, now, p, newHash);
    RefreshEffects(e, hash, now, p, newHash);
    assert AllHashes(Slide(e, now, p)) == AllHashes(e);
    assert AllHashes(Slide(Mint(e, now, p, newHash).entry, now, p)) == AllHashes(Mint(e, now, p, newHash).entry);
  }

  lemma RefreshEffects(e: Entry, hash: TokenHash, now: Timestamp, p: SessionPolicy, newHash: TokenHash)
    requires e.gens != []
    ensures EntryRefresh(e, hash, now, p, newHash).effects
         == if Refreshable(Classify(e, hash, now, p)) && !Coalesces(e, now, p)
            then Mint(e, now, p, newHash).effects else NO_EFFECTS
    ensures Mint(e, now, p, newHash).effects.added == Some(NewGeneration(e.currentGen + 1, newHash, now, p))
  {
  }

  lemma ReapFits(p: SessionPolicy, w: World, sid: Sid, now: Timestamp)
    requires AllClaims(p, w) && sid in w.sessions
    ensures var r := Reap(w.sessions[sid], now, p);
            EntryOk(p, r.entry) && Fits(w, sid, HeldBy(w, sid), r.entry, Effects(None, None, r.purged))
  {
    assert Claims(p, w, sid);
    ReapKeepsOk(p, w.sessions[sid], now);
    ReapPurges(p, w.sessions[sid], now);
  }

  lemma AllListed(e: Entry, hash: TokenHash)
    ensures hash in Hashes(Marks(e.gens) + e.retired) <==> hash in AllHashes(e)
  {
    MarkHashesAppend([], e.gens);
    var marks := Marks(e.gens) + e.retired;
    if hash in HashSet(e.gens) {
      var i :| 0 <= i < |e.gens| && e.gens[i].hash == hash;
      assert Hashes(marks)[i] == hash;
    } else if hash in AllHashes(e) {
      var i :| 0 <= i < |e.retired| && e.retired[i].hash == hash;
      assert Hashes(marks)[|e.gens| + i] == hash;
    }
    if hash in Hashes(marks) {
      var i :| 0 <= i < |marks| && marks[i].hash == hash;
      if i < |e.gens| {
        assert e.gens[i] in e.gens;
      } else {
        assert e.retired[i - |e.gens|] in e.retired;
      }
    }
  }

  lemma RemoveKeeps(p: SessionPolicy, w: World, t: Thread, sid: Sid)
    requires Safe(p, w) && w.Queue(t) == [] && sid in w.sessions
    ensures Safe(p, Advance(p, w, Remove(t, sid)))
  {
    var w' := Advance(p, w, Remove(t, sid));
    forall u, op | op in w'.Queue(u) ensures Harmless(w', op) {
      if u == t {
        InDels(Hashes(Marks(w.sessions[sid].gens) + w.sessions[sid].retired), op);
        AllListed(w.sessions[sid], op.hash);
        HeldAreOwned(p, w, sid, op.hash);
      } else {
        assert op in w.Queue(u) && Harmless(w, op);
      }
    }
    forall x | x in w'.sessions ensures Claims(p, w', x) {
      assert Claims(p, w, x);
      forall h | h in AllHashes(w'.sessions[x]) ensures Reached(w', x, h) {
        StillReached(w, w', x, h);
      }
    }
  }

  /** One key of the index brought up to date. */
  lemma SettleReaches(p: SessionPolicy, w: World, t: Thread, x: Sid, hash: TokenHash)
    requires Routes(w) && QueuesHarmless(w) && w.Queue(t) != [] && x in w.sessions
    requires Reached(w, x, hash) && hash in AllHashes(w.sessions[x])
    ensures Reached(Advance(p, w, Settles(t)), x, hash)
  {
    var op, w' := w.Queue(t)[0], Advance(p, w, Settles(t));
    assert op in w.Queue(t) && Harmless(w, op);
    if hash !in w.index && op != Put(hash, w.owner[hash]) {
      var u: Thread :| Put(hash, w.owner[hash]) in w.Queue(u);
      if u == t {
        assert w.Queue(t) == [op] + w.Queue(t)[1..];
      }
      assert Put(hash, w.owner[hash]) in w'.Queue(u);
    }
  }

  lemma SettlesKeeps(p: SessionPolicy, w: World, t: Thread)
    requires Safe(p, w) && w.Queue(t) != []
    ensures Safe(p, Advance(p, w, Settles(t)))
  {
    var op, w' := w.Queue(t)[0], Advance(p, w, Settles(t));
    assert op in w.Queue(t) && Harmless(w, op);
    forall u, o | o in w'.Queue(u) ensures Harmless(w', o) {
      assert o in w.Queue(u) && Harmless(w, o);
    }
    forall x | x in w'.sessions ensures Claims(p, w', x) {
      assert Claims(p, w, x);
      forall h | h in AllHashes(w'.sessions[x]) ensures Reached(w', x, h) {
        SettleReaches(p, w, t, x, h);
      }
    }
  }

  /** Every step keeps the map safe. */
  lemma AdvanceKeeps(p: SessionPolicy, w: World, m: Micro)
    requires Safe(p, w) && Enabled(w, m)
    ensures Safe(p, Advance(p, w, m))
  {
    match m
    case Insert(_, _, _, _, _, _) => InsertKeeps(p, w, m);
    case Refreshing(t, sid, hash, now, newHash) =>
      RefreshFits(p, w, sid, hash, now, newHash);
      var r := EntryRefresh(w.sessions[sid], hash, now, p, newHash);
      LockedKeeps(p, w, t, sid, r.entry, r.effects);
    case Reaping(t, sid, now) =>
      ReapFits(p, w, sid, now);
      var r := Reap(w.sessions[sid], now, p);
      LockedKeeps(p, w, t, sid, r.entry, Effects(None, None, r.purged));
    case Bury(sid, now) =>
      assert Claims(p, w, sid);
      assert AllHashes(Buried(w.sessions[sid], now)) == AllHashes(w.sessions[sid]);
      SameHashesKeep(p, w, sid, Buried(w.sessions[sid], now));
    case SetStatus(sid, custody, status) =>
      assert Claims(p, w, sid);
      assert AllHashes(WithStatus(w.sessions[sid], custody, status)) == AllHashes(w.sessions[sid]);
      SameHashesKeep(p, w, sid, WithStatus(w.sessions[sid], custody, status));
    case Remove(t, sid) => RemoveKeeps(p, w, t, sid);
    case Settles(t) => SettlesKeeps(p, w, t);
  }

  // ---------------------------------------------------------------------------------------
  // Runs
  // ---------------------------------------------------------------------------------------

  ghost predicate Schedule(p: SessionPolicy, w: World, ms: seq<Micro>)
    decreases |ms|
  {
    ms == [] || (Enabled(w, ms[0]) && Schedule(p, Advance(p, w, ms[0]), ms[1..]))
  }

  ghost function Interleave(p: SessionPolicy, w: World, ms: seq<Micro>): World
    requires Schedule(p, w, ms)
    decreases |ms|
  {
    if ms == [] then w else Interleave(p, Advance(p, w, ms[0]), ms[1..])
  }

  lemma {:induction false} EveryInterleavingIsSafe(p: SessionPolicy, w: World, ms: seq<Micro>)
    requires Safe(p, w) && Schedule(p, w, ms)
    ensures Safe(p, Interleave(p, w, ms))
    decreases |ms|
  {
    if ms != [] {
      AdvanceKeeps(p, w, ms[0]);
      EveryInterleavingIsSafe(p, Advance(p, w, ms[0]), ms[1..]);
    }
  }

  /** The session a hash was minted for is settled at its mint. */
  lemma {:induction false} OwnerIsForever(p: SessionPolicy, w: World, ms: seq<Micro>, hash: TokenHash)
    requires Safe(p, w) && Schedule(p, w, ms) && hash in w.owner
    ensures hash in Interleave(p, w, ms).owner && Interleave(p, w, ms).owner[hash] == w.owner[hash]
    decreases |ms|
  {
    if ms != [] {
      OwnerStays(p, w, ms[0], hash);
      AdvanceKeeps(p, w, ms[0]);
      OwnerIsForever(p, Advance(p, w, ms[0]), ms[1..], hash);
    }
  }

  lemma OwnerStays(p: SessionPolicy, w: World, m: Micro, hash: TokenHash)
    requires Safe(p, w) && Enabled(w, m) && hash in w.owner
    ensures hash in Advance(p, w, m).owner && Advance(p, w, m).owner[hash] == w.owner[hash]
  {
    if m.Refreshing? {
      RefreshFits(p, w, m.sid, m.hash, m.now, m.newHash);
    }
  }

  lemma OpIsHarmless(w: World, t: Thread, op: IndexOp)
    requires QueuesHarmless(w) && op in w.Queue(t)
    ensures Harmless(w, op)
  {
  }

  /** The map between operations, as threads find it: nothing owed. */
  function AtRest(y: System): World {
    World(y.store.sessions, y.store.index, map[], map h | h in y.ledger :: y.ledger[h].sid, y.sids)
  }

  /** It is safe to let threads loose on any map that a run of operations can come to, the empty one
      and a booted one included. */
  lemma AtRestIsSafe(p: SessionPolicy, y: System)
    requires Inv(p, y)
    ensures Safe(p, AtRest(y))
  {
    AtRestRoutes(p, y, Replay(y.log));
    forall x | x in y.store.sessions ensures Claims(p, AtRest(y), x) {
      AtRestClaims(p, y, Replay(y.log), x);
    }
  }

  lemma AtRestRoutes(p: SessionPolicy, y: System, db: Db)
    requires AllStand(p, y, db) && IndexExact(y.store) && LedgerOk(db, y.ledger) && db.sessions.Keys == y.sids
    ensures Routes(AtRest(y)) && QueuesHarmless(AtRest(y)) && y.store.sessions.Keys <= y.sids
    ensures forall h :: h in AtRest(y).owner ==> AtRest(y).owner[h] in y.sids
  {
    InUse(p, y, db);
    forall h | h in y.ledger ensures y.ledger[h].sid in y.sids {
      assert LedgerRowOk(db, y.ledger[h], h);
    }
  }

  lemma AtRestClaims(p: SessionPolicy, y: System, db: Db, x: Sid)
    requires AllStand(p, y, db) && IndexExact(y.store) && x in y.store.sessions
    ensures Claims(p, AtRest(y), x)
  {
    HasRow(p, y, db, x);
    OnLedgerHashes(y.ledger, x, y.store.sessions[x]);
  }

  /** Index safety, in any interleaving of any operations on any threads: an index entry points
      only at the session its hash was minted for; a hash some entry claims is indexed to it or in
      some thread's unapplied effects; and no thread is about to remove a claimed hash. */
  lemma IndexSafety(p: SessionPolicy, y: System, ms: seq<Micro>, sid: Sid, hash: TokenHash)
    requires Reachable(p, y) && Schedule(p, AtRest(y), ms)
    ensures var w := Interleave(p, AtRest(y), ms);
            && (hash in w.index ==> hash in w.owner && w.index[hash] == w.owner[hash])
            && (sid in w.sessions && hash in AllHashes(w.sessions[sid]) ==>
                  && (hash in w.index ==> w.index[hash] == sid)
                  && (hash in w.index || exists t: Thread :: Put(hash, sid) in w.Queue(t))
                  && (forall t: Thread :: Del(hash) !in w.Queue(t)))
  {
    ReachableInv(p, y);
    AtRestIsSafe(p, y);
    EveryInterleavingIsSafe(p, AtRest(y), ms);
    SafeIndex(p, Interleave(p, AtRest(y), ms), sid, hash);
  }

  lemma SafeIndex(p: SessionPolicy, w: World, sid: Sid, hash: TokenHash)
    requires Safe(p, w)
    ensures hash in w.index ==> hash in w.owner && w.index[hash] == w.owner[hash]
    ensures sid in w.sessions && hash in AllHashes(w.sessions[sid]) ==>
              && (hash in w.index ==> w.index[hash] == sid)
              && (hash in w.index || exists t: Thread :: Put(hash, sid) in w.Queue(t))
              && (forall t: Thread :: Del(hash) !in w.Queue(t))
  {
    if sid in w.sessions && hash in AllHashes(w.sessions[sid]) {
      HeldAreOwned(p, w, sid, hash);
      forall t: Thread ensures Del(hash) !in w.Queue(t) {
        if Del(hash) in w.Queue(t) {
          OpIsHarmless(w, t, Del(hash));
        }
      }
    }
  }

  /** No thread owes the index anything. */
  ghost predicate Quiet(w: World) {
    forall t: Thread :: w.Queue(t) == []
  }

  /** Once the threads have settled, every hash a session claims leads to it. */
  lemma QuietIsIndexed(p: SessionPolicy, w: World, sid: Sid, hash: TokenHash)
    requires Safe(p, w) && Quiet(w) && sid in w.sessions && hash in AllHashes(w.sessions[sid])
    ensures hash in w.index && w.index[hash] == sid
  {
    SafeIndex(p, w, sid, hash);
    if t: Thread :| Put(hash, sid) in w.Queue(t) {
      assert w.Queue(t) == [];
    }
  }

  /** A verdict is about the session the token was minted for, even if the entry changed, or the
      session went, between the lookup and the entry lock. */
  lemma VerdictIsTheOwners(p: SessionPolicy, y: System, ms: seq<Micro>, more: seq<Micro>, hash: TokenHash,
                           now: Timestamp)
    requires Reachable(p, y) && Schedule(p, AtRest(y), ms) && Schedule(p, Interleave(p, AtRest(y), ms), more)
    ensures var looked, w := Interleave(p, AtRest(y), ms), Interleave(p, Interleave(p, AtRest(y), ms), more);
            hash in looked.index && looked.index[hash] in w.sessions &&
            Classify(w.sessions[looked.index[hash]], hash, now, p).Active? ==>
              hash in w.owner && w.owner[hash] == looked.index[hash] && hash in HashSet(w.sessions[w.owner[hash]].gens)
  {
    var looked := Interleave(p, AtRest(y), ms);
    ReachableInv(p, y);
    AtRestIsSafe(p, y);
    EveryInterleavingIsSafe(p, AtRest(y), ms);
    if hash in looked.index {
      OwnerIsForever(p, looked, more, hash);
      var w := Interleave(p, looked, more);
      if looked.index[hash] in w.sessions {
        FindsNoGenOrOne(w.sessions[looked.index[hash]].gens, hash);
      }
    }
  }

  lemma FindsNoGenOrOne(gens: seq<Generation>, hash: TokenHash)
    ensures FindGen(gens, hash).Some? ==> hash in HashSet(gens)
  {
  }
}
