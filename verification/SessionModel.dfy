/** Generations, session entries and what each entry operation does, as values. A session token is
    represented by its hash. */
module SessionModel {
  import opened Prelude
  import opened Custody

  datatype Sid = Sid(id: string)

  datatype TokenHash = TokenHash(digest: nat)

  datatype SessionPolicy = SessionPolicy(
    genTtl: nat,
    grace: nat,
    coalesce: nat,
    idleTtl: nat,
    absoluteTtl: nat,
    maxLiveGens: nat,
    retiredMemory: nat,
    onUpstreamRevoked: RevocationPolicy)
  {
    /** The cap never drops the current generation. */
    function Cap(): nat {
      Max(maxLiveGens, 1)
    }
  }

  datatype Generation = Generation(
    genNo: nat,
    hash: TokenHash,
    createdAt: Timestamp,
    activeUntil: Timestamp,
    supersededAt: Option<Timestamp>)
  {
    /** When this generation stops authenticating resource access. */
    function ValidUntil(grace: nat): Timestamp {
      match supersededAt
      case None => activeUntil
      case Some(at) => Min(activeUntil, at + grace)
    }
  }

  datatype SessionStatus = Alive | Tombstoned

  datatype ExpiredReason = Idle | Absolute | LoggedOut | UpstreamRevoked

  /** What a presented token means right now. */
  datatype Resolution =
    | Unknown
    | Active(sid: Sid, genNo: nat, newest: bool)
    | StaleRefreshable(sid: Sid, genNo: nat)
    | Retired(sid: Sid, genNo: nat)
    | HardExpired(sid: Sid, reason: ExpiredReason)
  {
    predicate Authenticates() {
      Active?
    }
  }

  /** A retired hash still remembered, with its generation number. */
  datatype Mark = Mark(hash: TokenHash, genNo: nat)

  datatype Entry = Entry(
    sid: Sid,
    custody: CustodyId,
    sub: string,
    gens: seq<Generation>,            // oldest first
    currentGen: nat,
    currentToken: Option<TokenHash>,  // memory-only plaintext of the current generation
    idleExp: Timestamp,
    absoluteExp: Timestamp,
    status: SessionStatus,
    tombstonedAt: Option<Timestamp>,
    custodyStatus: CustodyStatus,
    retired: seq<Mark>)               // newest last

  datatype SessionMeta = SessionMeta(
    sub: string,
    sid: Sid,
    gen: nat,
    activeUntil: Timestamp,
    refreshUntil: Timestamp,
    absoluteUntil: Timestamp,
    custody: CustodyStatus)

  datatype RefreshDenied =
    | DeniedUnknown
    | DeniedRetired(sid: Sid, genNo: nat)
    | DeniedExpired(sid: Sid, reason: ExpiredReason)

  datatype RefreshResult =
    | Issued(token: TokenHash, meta: SessionMeta, rotated: bool)
    | Refused(why: RefreshDenied)

  datatype Supersession = Supersession(hash: TokenHash, at: Timestamp)

  /** Index maintenance, and durable writes, a mutation implies. */
  datatype Effects = Effects(added: Option<Generation>, superseded: Option<Supersession>, purged: seq<TokenHash>)

  const NO_EFFECTS := Effects(None, None, [])

  // ---------------------------------------------------------------------------------------
  // Reading an entry
  // ---------------------------------------------------------------------------------------

  function SessionExpiry(e: Entry, now: Timestamp, p: SessionPolicy): Option<ExpiredReason> {
    if e.status.Tombstoned? then Some(LoggedOut)
    else if now >= e.absoluteExp then Some(Absolute)
    else if now >= e.idleExp then Some(Idle)
    else if e.custodyStatus.Dead? && p.onUpstreamRevoked.Kill? then Some(UpstreamRevoked)
    else None
  }

  function FindGen(gens: seq<Generation>, hash: TokenHash): (g: Option<Generation>)
    ensures g.Some? ==> g.value in gens && g.value.hash == hash
    ensures g.None? ==> forall x :: x in gens ==> x.hash != hash
  {
    if gens == [] then None
    else if gens[0].hash == hash then Some(gens[0])
    else FindGen(gens[1..], hash)
  }

  function FindMark(marks: seq<Mark>, hash: TokenHash): (m: Option<Mark>)
    ensures m.Some? ==> m.value in marks && m.value.hash == hash
    ensures m.None? ==> forall x :: x in marks ==> x.hash != hash
  {
    if marks == [] then None
    else if marks[0].hash == hash then Some(marks[0])
    else FindMark(marks[1..], hash)
  }

  function Classify(e: Entry, hash: TokenHash, now: Timestamp, p: SessionPolicy): Resolution {
    match SessionExpiry(e, now, p)
    case Some(reason) => HardExpired(e.sid, reason)
    case None =>
      match FindGen(e.gens, hash)
      case Some(g) =>
        var newest := g.genNo == e.currentGen;
        if now < g.ValidUntil(p.grace) then Active(e.sid, g.genNo, newest)
        else if newest then StaleRefreshable(e.sid, g.genNo)
        else Retired(e.sid, g.genNo)
      case None =>
        match FindMark(e.retired, hash)
        case Some(m) => Retired(e.sid, m.genNo)
        case None => Unknown
  }

  function Meta(e: Entry): SessionMeta
    requires e.gens != []
  {
    SessionMeta(e.sub, e.sid, e.currentGen, e.gens[|e.gens| - 1].activeUntil, e.idleExp, e.absoluteExp, e.custodyStatus)
  }

  // ---------------------------------------------------------------------------------------
  // Retiring and reaping
  // ---------------------------------------------------------------------------------------

  /** No longer authenticates anything, and not the refresh credential. */
  predicate Expired(g: Generation, current: nat, now: Timestamp, grace: nat) {
    g.genNo != current && now >= g.ValidUntil(grace)
  }

  function Kept(gens: seq<Generation>, current: nat, now: Timestamp, grace: nat): seq<Generation> {
    if gens == [] then []
    else
      var last := gens[|gens| - 1];
      Kept(gens[..|gens| - 1], current, now, grace) + (if Expired(last, current, now, grace) then [] else [last])
  }

  function Dropped(gens: seq<Generation>, current: nat, now: Timestamp, grace: nat): seq<Generation> {
    if gens == [] then []
    else
      var last := gens[|gens| - 1];
      Dropped(gens[..|gens| - 1], current, now, grace) + (if Expired(last, current, now, grace) then [last] else [])
  }

  function Marks(gens: seq<Generation>): seq<Mark> {
    seq(|gens|, i requires 0 <= i < |gens| => Mark(gens[i].hash, gens[i].genNo))
  }

  function Hashes(marks: seq<Mark>): seq<TokenHash> {
    seq(|marks|, i requires 0 <= i < |marks| => marks[i].hash)
  }

  /** How many of the oldest marks overflow the memory. */
  function Overflow(marks: seq<Mark>, memory: nat): nat {
    if |marks| > memory then |marks| - memory else 0
  }

  /** The retired memory after retiring `gens` in order, and the hashes it forgot. */
  function RetireAll(retired: seq<Mark>, gens: seq<Generation>, memory: nat): (seq<Mark>, seq<TokenHash>) {
    if gens == [] then (retired, [])
    else
      var all := retired + Marks(gens);
      var k := Overflow(all, memory);
      (all[k..], Hashes(all[..k]))
  }

  /** What reaping leaves: the entry, the hashes to purge from the index, and the generations the
      cap pushed out while they had not expired. */
  datatype Reaped = Reaped(entry: Entry, purged: seq<TokenHash>, capped: seq<Generation>)

  function Reap(e: Entry, now: Timestamp, p: SessionPolicy): Reaped {
    var kept := Kept(e.gens, e.currentGen, now, p.grace);
    var dropped := Dropped(e.gens, e.currentGen, now, p.grace);
    var over := if |kept| > p.Cap() then |kept| - p.Cap() else 0;
    var (retired, purged) := RetireAll(e.retired, dropped + kept[..over], p.retiredMemory);
    Reaped(e.(gens := kept[over..], retired := retired), purged, kept[..over])
  }

  // ---------------------------------------------------------------------------------------
  // Minting and refreshing
  // ---------------------------------------------------------------------------------------

  function Slide(e: Entry, now: Timestamp, p: SessionPolicy): Entry {
    e.(idleExp := Min(now + p.idleTtl, e.absoluteExp))
  }

  function NewGeneration(genNo: nat, hash: TokenHash, now: Timestamp, p: SessionPolicy): Generation {
    Generation(genNo, hash, now, now + p.genTtl, None)
  }

  /** The entry with its newest generation superseded and a new one appended, nothing reaped. */
  function Grown(e: Entry, now: Timestamp, p: SessionPolicy, newHash: TokenHash): Entry
    requires e.gens != []
  {
    var last := |e.gens| - 1;
    e.(gens := e.gens[..last] + [e.gens[last].(supersededAt := Some(now)),
                                 NewGeneration(e.currentGen + 1, newHash, now, p)],
       currentGen := e.currentGen + 1,
       currentToken := Some(newHash))
  }

  datatype Minted = Minted(entry: Entry, effects: Effects, capped: seq<Generation>)

  function Mint(e: Entry, now: Timestamp, p: SessionPolicy, newHash: TokenHash): Minted
    requires e.gens != []
  {
    var r := Reap(Grown(e, now, p, newHash), now, p);
    Minted(r.entry,
           Effects(Some(NewGeneration(e.currentGen + 1, newHash, now, p)),
                   Some(Supersession(e.gens[|e.gens| - 1].hash, now)),
                   r.purged),
           r.capped)
  }

  /** A recent current generation is re-issued while its plaintext is at hand. */
  predicate Coalesces(e: Entry, now: Timestamp, p: SessionPolicy)
    requires e.gens != []
  {
    Since(now, e.gens[|e.gens| - 1].createdAt) < p.coalesce && e.currentToken.Some?
  }

  /** What `refresh` does under the entry lock. */
  datatype Refreshed = Refreshed(entry: Entry, result: RefreshResult, effects: Effects, capped: seq<Generation>)

  function EntryRefresh(e: Entry, hash: TokenHash, now: Timestamp, p: SessionPolicy, newHash: TokenHash): Refreshed
    requires e.gens != []
    ensures EntryRefresh(e, hash, now, p, newHash).result.Issued?
       <==> Classify(e, hash, now, p).Active? || Classify(e, hash, now, p).StaleRefreshable?
  {
    match Classify(e, hash, now, p)
    case Unknown => Refreshed(e, Refused(DeniedUnknown), NO_EFFECTS, [])
    case Retired(sid, genNo) => Refreshed(e, Refused(DeniedRetired(sid, genNo)), NO_EFFECTS, [])
    case HardExpired(sid, reason) => Refreshed(e, Refused(DeniedExpired(sid, reason)), NO_EFFECTS, [])
    case _ =>
      if Coalesces(e, now, p) then
        var slid := Slide(e, now, p);
        Refreshed(slid, Issued(e.currentToken.value, Meta(slid), false), NO_EFFECTS, [])
      else
        var m := Mint(e, now, p, newHash);
        MintKeepsCurrent(e, now, p, newHash);
        var slid := Slide(m.entry, now, p);
        Refreshed(slid, Issued(newHash, Meta(slid), true), m.effects, m.capped)
  }

  function NewEntry(sid: Sid, custody: CustodyId, sub: string, now: Timestamp, p: SessionPolicy,
                    newHash: TokenHash): Entry {
    var absoluteExp := now + p.absoluteTtl;
    Entry(sid, custody, sub, [NewGeneration(1, newHash, now, p)], 1, Some(newHash),
          Min(now + p.idleTtl, absoluteExp), absoluteExp, Alive, None, Ok, [])
  }

  function Buried(e: Entry, now: Timestamp): Entry {
    e.(status := Tombstoned, tombstonedAt := Some(now), currentToken := None)
  }

  /** Past its usable life and its grace: the sweeper may forget it. */
  predicate Collectible(e: Entry, now: Timestamp, p: SessionPolicy) {
    match SessionExpiry(e, now, p)
    case None => false
    case Some(LoggedOut) => e.tombstonedAt.Some? && Since(now, e.tombstonedAt.value) >= p.grace
    case Some(_) => Since(now, e.idleExp) >= p.grace
  }

  // ---------------------------------------------------------------------------------------
  // Facts about reaping
  // ---------------------------------------------------------------------------------------

  lemma {:induction false} KeptOrDropped(gens: seq<Generation>, current: nat, now: Timestamp, grace: nat)
    ensures forall g :: g in Kept(gens, current, now, grace) <==> g in gens && !Expired(g, current, now, grace)
    ensures forall g :: g in Dropped(gens, current, now, grace) <==> g in gens && Expired(g, current, now, grace)
    ensures |Kept(gens, current, now, grace)| + |Dropped(gens, current, now, grace)| == |gens|
  {
    if gens != [] {
      KeptOrDropped(gens[..|gens| - 1], current, now, grace);
      assert gens == gens[..|gens| - 1] + [gens[|gens| - 1]];
    }
  }

  lemma KeptSnoc(gens: seq<Generation>, last: Generation, current: nat, now: Timestamp, grace: nat)
    ensures Kept(gens + [last], current, now, grace)
         == Kept(gens, current, now, grace) + (if Expired(last, current, now, grace) then [] else [last])
    ensures Dropped(gens + [last], current, now, grace)
         == Dropped(gens, current, now, grace) + (if Expired(last, current, now, grace) then [last] else [])
  {
    assert (gens + [last])[..|gens|] == gens;
  }

  /** The generation last in the list survives reaping if it is the current one. */
  lemma ReapKeepsCurrent(e: Entry, now: Timestamp, p: SessionPolicy)
    requires e.gens != [] && e.gens[|e.gens| - 1].genNo == e.currentGen
    ensures var gens := Reap(e, now, p).entry.gens;
            gens != [] && gens[|gens| - 1] == e.gens[|e.gens| - 1]
  {
    var last := |e.gens| - 1;
    assert e.gens == e.gens[..last] + [e.gens[last]];
    KeptSnoc(e.gens[..last], e.gens[last], e.currentGen, now, p.grace);
  }

  lemma MintKeepsCurrent(e: Entry, now: Timestamp, p: SessionPolicy, newHash: TokenHash)
    requires e.gens != []
    ensures var gens := Mint(e, now, p, newHash).entry.gens;
            gens != [] && gens[|gens| - 1] == NewGeneration(e.currentGen + 1, newHash, now, p)
  {
    ReapKeepsCurrent(Grown(e, now, p, newHash), now, p);
  }
}
