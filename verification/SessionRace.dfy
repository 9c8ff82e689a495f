/** Many tabs refreshing at once: everyone who presents the newest cookie is served, with a token
    good at their own reading of the clock, and at most one generation is minted. */
module SessionRace {
  import opened Prelude
  import opened SessionModel
  import opened SessionStore
  import opened SessionEntryFacts
  import opened SessionRestart
  import opened SessionIdeal

  /** A caller's reading of the clock, and the hash it would mint. */
  datatype Call = Call(now: Timestamp, newHash: TokenHash)

  /** The calls in the order they get the entry lock. */
  function Race(p: SessionPolicy, e: Entry, hash: TokenHash, calls: seq<Call>): (Entry, seq<RefreshResult>)
    decreases |calls|
  {
    if calls == [] || e.gens == [] then (e, [])
    else
      var r := EntryRefresh(e, hash, calls[0].now, p, calls[0].newHash);
      var rest := Race(p, r.entry, hash, calls[1..]);
      (rest.0, [r.result] + rest.1)
  }

  function Rotations(results: seq<RefreshResult>): nat {
    if results == [] then 0
    else (if results[0].Issued? && results[0].rotated then 1 else 0) + Rotations(results[1..])
  }

  /** Every reading falls in a window narrower than coalescing, the grace and the idle lifetime. */
  predicate Close(p: SessionPolicy, calls: seq<Call>, lo: Timestamp, hi: Timestamp) {
    && hi - lo < p.coalesce && hi - lo < p.grace && hi - lo < p.idleTtl && lo <= hi
    && forall i :: 0 <= i < |calls| ==> lo <= calls[i].now <= hi
  }

  /** The session lives through the window. */
  predicate Lives(p: SessionPolicy, e: Entry, hi: Timestamp) {
    SessionExpiry(e, hi, p).None?
  }

  /** Nobody has rotated: the presented token is the newest, and Active through the window. */
  predicate Before(p: SessionPolicy, e: Entry, hash: TokenHash, hi: Timestamp) {
    && EntryOk(p, e) && Lives(p, e, hi)
    && e.gens[|e.gens| - 1].hash == hash && hi < e.gens[|e.gens| - 1].activeUntil
  }

  /** Someone has: the presented token is inside its grace, the newest is young and at hand. */
  predicate After(p: SessionPolicy, e: Entry, prior: Generation, hash: TokenHash, lo: Timestamp, hi: Timestamp) {
    && EntryOk(p, e) && Lives(p, e, hi) && e.currentToken.Some?
    && prior in e.gens && prior.hash == hash && hi < prior.ValidUntil(p.grace)
    && lo <= e.gens[|e.gens| - 1].createdAt <= hi
    && e.gens[|e.gens| - 1].activeUntil == e.gens[|e.gens| - 1].createdAt + p.genTtl
  }

  /** Served: the token authenticates at the caller's own reading. */
  predicate Served(p: SessionPolicy, e: Entry, result: RefreshResult, now: Timestamp) {
    result.Issued? && Classify(e, result.token, now, p).Active?
  }

  predicate AllServed(p: SessionPolicy, e: Entry, results: seq<RefreshResult>, calls: seq<Call>) {
    |results| == |calls| && forall i :: 0 <= i < |calls| ==> Served(p, e, results[i], calls[i].now)
  }

  lemma SlideLives(p: SessionPolicy, e: Entry, now: Timestamp, lo: Timestamp, hi: Timestamp)
    requires Lives(p, e, hi) && lo <= now && hi - lo < p.idleTtl
    ensures Lives(p, Slide(e, now, p), hi)
  {
  }

  /** A generation inside its window authenticates at every reading. */
  lemma GenIsActive(p: SessionPolicy, e: Entry, g: Generation, now: Timestamp, hi: Timestamp)
    requires EntryOk(p, e) && Lives(p, e, hi) && now <= hi && g in e.gens && now < g.ValidUntil(p.grace)
    ensures Classify(e, g.hash, now, p).Active?
  {
    FindsGen(e.gens, g);
  }

  lemma TopIsUnsuperseded(p: SessionPolicy, e: Entry)
    requires EntryOk(p, e)
    ensures var top := e.gens[|e.gens| - 1]; top in e.gens && top.ValidUntil(p.grace) == top.activeUntil
  {
  }

  /** What the presented and the newest token are worth after the rotation. */
  lemma AfterServes(p: SessionPolicy, e: Entry, prior: Generation, hash: TokenHash, now: Timestamp, lo: Timestamp,
                    hi: Timestamp)
    requires After(p, e, prior, hash, lo, hi) && lo <= now <= hi && hi - lo < p.coalesce <= p.genTtl
    ensures Classify(e, hash, now, p).Active?
    ensures Classify(e, e.gens[|e.gens| - 1].hash, now, p).Active?
    ensures Coalesces(e, now, p)
  {
    GenIsActive(p, e, prior, now, hi);
    TopIsUnsuperseded(p, e);
    GenIsActive(p, e, e.gens[|e.gens| - 1], now, hi);
  }

  /** A race is its first call and the rest of it. */
  lemma RaceFirst(p: SessionPolicy, e: Entry, hash: TokenHash, calls: seq<Call>)
    requires calls != [] && e.gens != []
    ensures var r := EntryRefresh(e, hash, calls[0].now, p, calls[0].newHash);
            var rest := Race(p, r.entry, hash, calls[1..]);
            Race(p, e, hash, calls) == (rest.0, [r.result] + rest.1)
  {
  }

  /** A call after the rotation coalesces. */
  lemma NextCall(p: SessionPolicy, e: Entry, prior: Generation, hash: TokenHash, calls: seq<Call>, lo: Timestamp,
                 hi: Timestamp)
      returns (r: Refreshed)
    requires After(p, e, prior, hash, lo, hi) && Close(p, calls, lo, hi) && p.coalesce <= p.genTtl && calls != []
    ensures Race(p, e, hash, calls)
         == (Race(p, r.entry, hash, calls[1..]).0, [r.result] + Race(p, r.entry, hash, calls[1..]).1)
    ensures After(p, r.entry, prior, hash, lo, hi) && r.entry.gens == e.gens
    ensures r.result.Issued? && !r.result.rotated && r.result.token == e.gens[|e.gens| - 1].hash
  {
    r := EntryRefresh(e, hash, calls[0].now, p, calls[0].newHash);
    RaceFirst(p, e, hash, calls);
    AfterServes(p, e, prior, hash, calls[0].now, lo, hi);
    RefreshCases(e, hash, calls[0].now, p, calls[0].newHash);
    SlideLives(p, e, calls[0].now, lo, hi);
  }

  lemma ServedFirst(p: SessionPolicy, last: Entry, result: RefreshResult, results: seq<RefreshResult>, calls: seq<Call>)
    requires calls != [] && Served(p, last, result, calls[0].now) && AllServed(p, last, results, calls[1..])
    ensures AllServed(p, last, [result] + results, calls)
    ensures Rotations([result] + results) == (if result.rotated then 1 else 0) + Rotations(results)
  {
    forall i | 0 <= i < |calls| ensures Served(p, last, ([result] + results)[i], calls[i].now) {
      if i > 0 {
        assert calls[1..][i - 1] == calls[i] && Served(p, last, results[i - 1], calls[1..][i - 1].now);
      }
    }
    assert ([result] + results)[1..] == results;
  }

  /** Everyone was handed this token. */
  predicate AllGet(results: seq<RefreshResult>, token: TokenHash) {
    forall i :: 0 <= i < |results| ==> results[i].Issued? && results[i].token == token
  }

  lemma GetFirst(result: RefreshResult, results: seq<RefreshResult>, token: TokenHash)
    requires result.Issued? && result.token == token && AllGet(results, token)
    ensures AllGet([result] + results, token)
  {
  }

  /** How a race ends that started after the rotation. */
  predicate AfterEnds(p: SessionPolicy, gens: seq<Generation>, calls: seq<Call>, last: Entry,
                      results: seq<RefreshResult>)
    requires gens != []
  {
    && last.gens == gens && AllServed(p, last, results, calls) && Rotations(results) == 0
    && AllGet(results, gens[|gens| - 1].hash)
  }

  lemma AfterEndsFirst(p: SessionPolicy, gens: seq<Generation>, calls: seq<Call>, last: Entry, result: RefreshResult,
                       results: seq<RefreshResult>)
    requires gens != [] && calls != [] && AfterEnds(p, gens, calls[1..], last, results)
    requires Served(p, last, result, calls[0].now) && !result.rotated && result.token == gens[|gens| - 1].hash
    ensures AfterEnds(p, gens, calls, last, [result] + results)
  {
    ServedFirst(p, last, result, results, calls);
    GetFirst(result, results, gens[|gens| - 1].hash);
  }

  /** After the rotation every call coalesces. */
  lemma {:induction false} AfterRace(p: SessionPolicy, e: Entry, prior: Generation, hash: TokenHash, calls: seq<Call>,
                                     lo: Timestamp, hi: Timestamp)
    requires After(p, e, prior, hash, lo, hi) && Close(p, calls, lo, hi) && p.coalesce <= p.genTtl
    ensures After(p, Race(p, e, hash, calls).0, prior, hash, lo, hi)
    ensures AfterEnds(p, e.gens, calls, Race(p, e, hash, calls).0, Race(p, e, hash, calls).1)
    decreases |calls|
  {
    if calls != [] {
      var r := NextCall(p, e, prior, hash, calls, lo, hi);
      AfterRace(p, r.entry, prior, hash, calls[1..], lo, hi);
      OneMoreEnds(p, e.gens, prior, hash, calls, Race(p, r.entry, hash, calls[1..]).0, r.result,
                  Race(p, r.entry, hash, calls[1..]).1, lo, hi);
    }
  }

  /** One more coalesced call ahead of a race. */
  lemma OneMoreEnds(p: SessionPolicy, gens: seq<Generation>, prior: Generation, hash: TokenHash, calls: seq<Call>,
                    last: Entry, result: RefreshResult, results: seq<RefreshResult>, lo: Timestamp, hi: Timestamp)
    requires gens != [] && calls != [] && After(p, last, prior, hash, lo, hi) && Close(p, calls, lo, hi)
    requires AfterEnds(p, gens, calls[1..], last, results) && p.coalesce <= p.genTtl
    requires result.Issued? && !result.rotated && result.token == gens[|gens| - 1].hash
    ensures AfterEnds(p, gens, calls, last, [result] + results)
  {
    AfterServes(p, last, prior, hash, calls[0].now, lo, hi);
    AfterEndsFirst(p, gens, calls, last, result, results);
  }

  /** The rotation itself: the presented token survives it with its grace ahead. */
  lemma RotationSettles(p: SessionPolicy, e: Entry, hash: TokenHash, now: Timestamp, newHash: TokenHash,
                        lo: Timestamp, hi: Timestamp)
    requires Before(p, e, hash, hi) && newHash !in AllHashes(e) && p.Cap() >= 2
    requires lo <= now <= hi && hi - lo < p.grace && hi - lo < p.idleTtl
    ensures After(p, Slide(Mint(e, now, p, newHash).entry, now, p), e.gens[|e.gens| - 1].(supersededAt := Some(now)),
                  hash, lo, hi)
    ensures var gens := Mint(e, now, p, newHash).entry.gens; gens[|gens| - 1].hash == newHash
  {
    var m := Mint(e, now, p, newHash);
    MintFacts(p, e, now, newHash);
    MintKeepsCurrent(e, now, p, newHash);
    SecondSurvives(p, e, now, newHash);
    SlideLives(p, m.entry, now, lo, hi);
  }

  /** With room for two, the generation just superseded is not the one the cap drops. */
  lemma SecondSurvives(p: SessionPolicy, e: Entry, now: Timestamp, newHash: TokenHash)
    requires EntryOk(p, e) && p.Cap() >= 2 && now < e.gens[|e.gens| - 1].activeUntil && 0 < p.grace
    ensures e.gens[|e.gens| - 1].(supersededAt := Some(now)) in Mint(e, now, p, newHash).entry.gens
  {
    var last, grown := |e.gens| - 1, Grown(e, now, p, newHash);
    var a, b := grown.gens[last], grown.gens[last + 1];
    assert grown.gens == e.gens[..last] + [a] + [b];
    KeptSnoc(e.gens[..last], a, grown.currentGen, now, p.grace);
    KeptSnoc(e.gens[..last] + [a], b, grown.currentGen, now, p.grace);
    var kept := Kept(grown.gens, grown.currentGen, now, p.grace);
    assert kept[|kept| - 2] == a;
    var gens := Mint(e, now, p, newHash).entry.gens;
    assert gens[|gens| - 2] == a;
  }

  lemma BeforeServes(p: SessionPolicy, e: Entry, hash: TokenHash, hi: Timestamp)
    requires Before(p, e, hash, hi)
    ensures Classify(e, hash, hi, p).Active?
  {
    TopIsUnsuperseded(p, e);
    GenIsActive(p, e, e.gens[|e.gens| - 1], hi, hi);
  }

  /** The race: any number of refreshes of the newest cookie, in any lock order, with readings in
      any order inside the window. */
  lemma {:induction false} RefreshRace(p: SessionPolicy, e: Entry, hash: TokenHash, calls: seq<Call>, lo: Timestamp,
                                       hi: Timestamp)
    requires Before(p, e, hash, hi) && Close(p, calls, lo, hi) && p.coalesce <= p.genTtl && p.Cap() >= 2
    requires forall i :: 0 <= i < |calls| ==> calls[i].newHash !in AllHashes(e)
    ensures var (last, results) := Race(p, e, hash, calls);
            AllServed(p, last, results, calls) && Rotations(results) <= 1
    ensures Classify(Race(p, e, hash, calls).0, hash, hi, p).Active?
    decreases |calls|
  {
    BeforeServes(p, e, hash, hi);
    if calls != [] {
      FirstCall(p, e, hash, calls, lo, hi);
      var r := EntryRefresh(e, hash, calls[0].now, p, calls[0].newHash);
      var race := Race(p, r.entry, hash, calls[1..]);
      if !r.result.rotated {
        RefreshRace(p, r.entry, hash, calls[1..], lo, hi);
        HashServes(p, race.0, hash, hi, calls[0].now);
      } else {
        var prior := e.gens[|e.gens| - 1].(supersededAt := Some(calls[0].now));
        RotatedRace(p, r.entry, prior, hash, calls, r.result, lo, hi);
      }
      ServedFirst(p, race.0, r.result, race.1, calls);
    }
  }

  /** The rest of a race whose first call rotated. */
  lemma RotatedRace(p: SessionPolicy, e: Entry, prior: Generation, hash: TokenHash, calls: seq<Call>,
                    result: RefreshResult, lo: Timestamp, hi: Timestamp)
    requires calls != [] && Close(p, calls, lo, hi) && p.coalesce <= p.genTtl && After(p, e, prior, hash, lo, hi)
    requires result.Issued? && result.token == e.gens[|e.gens| - 1].hash
    ensures var race := Race(p, e, hash, calls[1..]);
            && AllServed(p, race.0, race.1, calls[1..]) && Rotations(race.1) == 0
            && Served(p, race.0, result, calls[0].now) && Classify(race.0, hash, hi, p).Active?
  {
    var last := Race(p, e, hash, calls[1..]).0;
    AfterRace(p, e, prior, hash, calls[1..], lo, hi);
    AfterServes(p, last, prior, hash, calls[0].now, lo, hi);
    AfterServes(p, last, prior, hash, hi, lo, hi);
  }

  /** The first call of a race nobody has rotated in. */
  lemma FirstCall(p: SessionPolicy, e: Entry, hash: TokenHash, calls: seq<Call>, lo: Timestamp, hi: Timestamp)
    requires Before(p, e, hash, hi) && Close(p, calls, lo, hi) && p.Cap() >= 2 && calls != []
    requires calls[0].newHash !in AllHashes(e)
    ensures var r := EntryRefresh(e, hash, calls[0].now, p, calls[0].newHash);
            && r.result.Issued?
            && (if r.result.rotated
                then && After(p, r.entry, e.gens[|e.gens| - 1].(supersededAt := Some(calls[0].now)), hash, lo, hi)
                     && r.result.token == r.entry.gens[|r.entry.gens| - 1].hash
                else Before(p, r.entry, hash, hi) && r.result.token == hash && AllHashes(r.entry) == AllHashes(e))
  {
    var now, h := calls[0].now, calls[0].newHash;
    TopIsUnsuperseded(p, e);
    GenIsActive(p, e, e.gens[|e.gens| - 1], now, hi);
    RefreshCases(e, hash, now, p, h);
    if Coalesces(e, now, p) {
      SlideLives(p, e, now, lo, hi);
    } else {
      RotationSettles(p, e, hash, now, h, lo, hi);
    }
  }

  /** What authenticates at the end of the window does so throughout it. */
  lemma HashServes(p: SessionPolicy, e: Entry, hash: TokenHash, hi: Timestamp, now: Timestamp)
    requires Classify(e, hash, hi, p).Active? && now <= hi
    ensures Classify(e, hash, now, p).Active?
  {
  }
}
