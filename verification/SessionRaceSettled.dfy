/** The refresh race seen from outside: whatever else the threads do meanwhile, once they have settled
    every token the race handed out leads through the index to a session that honours it. */
module SessionRaceSettled {
  import opened Prelude
  import opened SessionModel
  import opened SessionStore
  import opened SessionInvariant
  import opened SessionSteps
  import opened SessionRestart
  import opened SessionRace
  import opened SessionConcurrent

  /** The step leaves session `sid` alone. */
  predicate Elsewhere(m: Micro, sid: Sid) {
    m.Settles? || m.sid != sid
  }

  /** The only steps on the session are refreshes presenting this hash. */
  ghost predicate OnlyRaces(ms: seq<Micro>, sid: Sid, hash: TokenHash) {
    forall m :: m in ms ==> Elsewhere(m, sid) || (m.Refreshing? && m.hash == hash)
  }

  /** The calls of the race, in the order they get the entry lock. */
  function CallsOf(ms: seq<Micro>, sid: Sid): seq<Call> {
    if ms == [] then []
    else
      (if Elsewhere(ms[0], sid) || !ms[0].Refreshing? then [] else [Call(ms[0].now, ms[0].newHash)])
      + CallsOf(ms[1..], sid)
  }

  lemma ElsewhereLeaves(p: SessionPolicy, w: World, m: Micro, sid: Sid)
    requires Safe(p, w) && Enabled(w, m) && Elsewhere(m, sid) && sid in w.sessions
    ensures sid in Advance(p, w, m).sessions && Advance(p, w, m).sessions[sid] == w.sessions[sid]
  {
    if m.Refreshing? {
      RefreshFits(p, w, m.sid, m.hash, m.now, m.newHash);
    }
  }

  lemma RaceStepIs(p: SessionPolicy, w: World, m: Micro, sid: Sid, hash: TokenHash)
    requires Safe(p, w) && Enabled(w, m) && m.Refreshing? && m.sid == sid && m.hash == hash
    ensures w.sessions[sid].gens != [] && sid in Advance(p, w, m).sessions
    ensures Advance(p, w, m).sessions[sid] == EntryRefresh(w.sessions[sid], hash, m.now, p, m.newHash).entry
  {
    RefreshFits(p, w, sid, hash, m.now, m.newHash);
  }

  /** The session's entry goes through the race as if nothing else happened. */
  lemma {:induction false} EntryRaces(p: SessionPolicy, w: World, ms: seq<Micro>, sid: Sid, hash: TokenHash)
    requires Safe(p, w) && Schedule(p, w, ms) && OnlyRaces(ms, sid, hash) && sid in w.sessions
    ensures sid in Interleave(p, w, ms).sessions
    ensures Interleave(p, w, ms).sessions[sid] == Race(p, w.sessions[sid], hash, CallsOf(ms, sid)).0
    decreases |ms|
  {
    if ms != [] {
      var m, w' := ms[0], Advance(p, w, ms[0]);
      assert m in ms;
      AdvanceKeeps(p, w, m);
      OnlyRacesOn(ms, sid, hash);
      if Elsewhere(m, sid) {
        ElsewhereLeaves(p, w, m, sid);
        assert CallsOf(ms, sid) == CallsOf(ms[1..], sid);
        EntryRaces(p, w', ms[1..], sid, hash);
      } else {
        RaceStepIs(p, w, m, sid, hash);
        EntryRaces(p, w', ms[1..], sid, hash);
        assert CallsOf(ms, sid) == [Call(m.now, m.newHash)] + CallsOf(ms[1..], sid);
        RaceGoesOn(p, w.sessions[sid], hash, Call(m.now, m.newHash), CallsOf(ms[1..], sid));
      }
    }
  }

  lemma RaceGoesOn(p: SessionPolicy, e: Entry, hash: TokenHash, call: Call, rest: seq<Call>)
    requires e.gens != []
    ensures Race(p, e, hash, [call] + rest).0
         == Race(p, EntryRefresh(e, hash, call.now, p, call.newHash).entry, hash, rest).0
  {
    assert ([call] + rest)[1..] == rest;
    RaceFirst(p, e, hash, [call] + rest);
  }

  lemma OnlyRacesOn(ms: seq<Micro>, sid: Sid, hash: TokenHash)
    requires OnlyRaces(ms, sid, hash) && ms != []
    ensures OnlyRaces(ms[1..], sid, hash)
  {
    assert forall m :: m in ms[1..] ==> m in ms;
  }

  /** The hashes the race would mint are new to the session. */
  lemma {:induction false} CallsAreFresh(p: SessionPolicy, w: World, ms: seq<Micro>, sid: Sid, hashes: set<TokenHash>)
    requires Safe(p, w) && Schedule(p, w, ms) && hashes <= w.owner.Keys
    ensures forall i :: 0 <= i < |CallsOf(ms, sid)| ==> CallsOf(ms, sid)[i].newHash !in hashes
    decreases |ms|
  {
    if ms != [] {
      var w' := Advance(p, w, ms[0]);
      AdvanceKeeps(p, w, ms[0]);
      forall h | h in hashes ensures h in w'.owner {
        OwnerStays(p, w, ms[0], h);
      }
      CallsAreFresh(p, w', ms[1..], sid, hashes);
    }
  }

  /** The race, through the index. From any map between operations, in any interleaving in which the
      session sees only refreshes of its newest Active token inside the window: everyone is answered
      with a token, at most one mints, and once the threads have settled each token resolves as Active
      at its caller's own reading. */
  lemma RaceIsHonoured(p: SessionPolicy, y: System, ms: seq<Micro>, sid: Sid, hash: TokenHash, lo: Timestamp,
                       hi: Timestamp)
    requires Reachable(p, y) && Schedule(p, AtRest(y), ms) && OnlyRaces(ms, sid, hash)
    requires sid in y.store.sessions && Before(p, y.store.sessions[sid], hash, hi)
    requires Close(p, CallsOf(ms, sid), lo, hi) && p.coalesce <= p.genTtl && p.Cap() >= 2
    requires Quiet(Interleave(p, AtRest(y), ms))
    ensures var calls := CallsOf(ms, sid);
            var results := Race(p, y.store.sessions[sid], hash, calls).1;
            |results| == |calls| && Rotations(results) <= 1 && forall i :: 0 <= i < |calls| ==>
              Honoured(p, Interleave(p, AtRest(y), ms), results[i], calls[i].now)
  {
    var w, calls, e := Interleave(p, AtRest(y), ms), CallsOf(ms, sid), y.store.sessions[sid];
    ReachableInv(p, y);
    AtRestIsSafe(p, y);
    HasRow(p, y, Replay(y.log), sid);
    OnLedgerHashes(y.ledger, sid, e);
    CallsAreFresh(p, AtRest(y), ms, sid, AllHashes(e));
    EntryRaces(p, AtRest(y), ms, sid, hash);
    EveryInterleavingIsSafe(p, AtRest(y), ms);
    RefreshRace(p, e, hash, calls, lo, hi);
    var results := Race(p, e, hash, calls).1;
    forall i | 0 <= i < |calls| ensures Honoured(p, w, results[i], calls[i].now) {
      assert Served(p, w.sessions[sid], results[i], calls[i].now);
      ServedIsHonoured(p, w, sid, results[i], calls[i].now);
    }
  }

  /** Answered with a token that the whole map lets in. */
  predicate Honoured(p: SessionPolicy, w: World, result: RefreshResult, now: Timestamp) {
    result.Issued? && Resolve(p, Store(w.sessions, w.index), result.token, now).Active?
  }

  lemma ServedIsHonoured(p: SessionPolicy, w: World, sid: Sid, result: RefreshResult, now: Timestamp)
    requires Safe(p, w) && Quiet(w) && sid in w.sessions && Served(p, w.sessions[sid], result, now)
    ensures Honoured(p, w, result, now)
  {
    FindsNoGenOrOne(w.sessions[sid].gens, result.token);
    QuietIsIndexed(p, w, sid, result.token);
  }
}
