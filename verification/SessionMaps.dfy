/** The session map as it runs: entries updated in place, the index and the durable log kept in step.
    `history` is the state machine the map refines; every method moves it by the operations it stands
    for. */
module SessionMaps {
  import opened Prelude
  import opened Custody
  import opened SessionModel
  import opened SessionStore
  import opened SessionEntries
  import opened SessionEntryFacts
  import opened SessionIdeal
  import opened SessionRestart
  import opened SessionCap
  import opened SessionInvariant
  import opened SessionBoot

  /** An entry its methods can work on. */
  predicate Roomy(p: SessionPolicy, e: Entry) {
    e.gens != [] && e.gens[|e.gens| - 1].genNo == e.currentGen && |e.retired| <= p.retiredMemory
  }

  ghost predicate AllRoomy(p: SessionPolicy, entries: map<Sid, Entry>) {
    forall x {:trigger Roomy(p, entries[x])} :: x in entries ==> Roomy(p, entries[x])
  }

  lemma ReplacedRoomy(p: SessionPolicy, entries: map<Sid, Entry>, sid: Sid, e: Entry)
    requires AllRoomy(p, entries) && Roomy(p, e)
    ensures AllRoomy(p, entries[sid := e])
  {
    var after := entries[sid := e];
    forall x | x in after ensures Roomy(p, after[x]) {
      assert x != sid ==> Roomy(p, entries[x]);
    }
  }

  /** A refresh leaves an entry its methods can work on, and one it refuses unchanged. */
  lemma RefreshIsRoomy(e: Entry, hash: TokenHash, now: Timestamp, p: SessionPolicy, newHash: TokenHash)
    requires Roomy(p, e)
    ensures var r := EntryRefresh(e, hash, now, p, newHash);
            Roomy(p, r.entry) && (r.result.Refused? ==> r.entry == e)
  {
    RefreshCases(e, hash, now, p, newHash);
    MintKeepsCurrent(e, now, p, newHash);
    RetiredFits(e.retired, Leaving(Grown(e, now, p, newHash), now, p), p.retiredMemory);
  }

  lemma ReapIsRoomy(e: Entry, now: Timestamp, p: SessionPolicy)
    requires Roomy(p, e)
    ensures Roomy(p, Reap(e, now, p).entry)
  {
    ReapKeepsCurrent(e, now, p);
    RetiredFits(e.retired, Leaving(e, now, p), p.retiredMemory);
  }

  /** From `y` to `y'` by what a refresh did to the entry it found. */
  predicate MovesTo(y: System, y': System, sid: Sid, r: Refreshed) {
    && y'.store.sessions == y.store.sessions[sid := r.entry]
    && (if r.result.Issued? then
          y'.store.index == AppliedIndex(y.store.index, sid, r.effects)
          && y'.log == y.log + EffectCommands(sid, r.effects)
             + [UpdateSessionProgress(sid, r.entry.currentGen, r.entry.idleExp)]
        else y'.store.index == y.store.index && y'.log == y.log)
  }

  /** The state machine after a refresh, from what the entry did. */
  lemma RefreshedSystem(p: SessionPolicy, y: System, hash: TokenHash, now: Timestamp, newHash: TokenHash)
    requires Finds(y, hash) && AllRoomy(p, y.store.sessions)
    ensures var y', sid := AfterRefresh(p, y, hash, now, newHash), y.store.index[hash];
            && MovesTo(y, y', sid, EntryRefresh(y.store.sessions[sid], hash, now, p, newHash))
            && AllRoomy(p, y'.store.sessions)
  {
    var sid := y.store.index[hash];
    var r := EntryRefresh(y.store.sessions[sid], hash, now, p, newHash);
    assert Roomy(p, y.store.sessions[sid]);
    RefreshIsRoomy(y.store.sessions[sid], hash, now, p, newHash);
    ReplacedRoomy(p, y.store.sessions, sid, r.entry);
    if r.result.Refused? {
      assert y.store.sessions[sid := r.entry] == y.store.sessions;
    }
  }

  predicate CreatesTo(p: SessionPolicy, y: System, y': System, sid: Sid, e: Entry, now: Timestamp, newHash: TokenHash) {
    && y'.store.sessions == y.store.sessions[sid := e] && y'.store.index == y.store.index[newHash := sid]
    && y'.log == y.log
       + [InsertSession(sid, SessionRow(e.custody, e.sub, 1, e.idleExp, e.absoluteExp, Alive, now, None))]
                 + [InsertGeneration(sid, 1, newHash, now, now + p.genTtl)]
  }

  /** The state machine after a session is created, field by field. */
  lemma CreatedSystem(p: SessionPolicy, y: System, sid: Sid, custody: CustodyId, sub: string, now: Timestamp,
                      newHash: TokenHash, e: Entry)
    requires e == NewEntry(sid, custody, sub, now, p, newHash) && AllRoomy(p, y.store.sessions)
    ensures var y' := Created(p, y, sid, custody, sub, now, newHash);
            CreatesTo(p, y, y', sid, e, now, newHash) && AllRoomy(p, y'.store.sessions)
  {
    ReplacedRoomy(p, y.store.sessions, sid, e);
  }

  predicate BuriesTo(y: System, y': System, sid: Sid, e: Entry, now: Timestamp) {
    && y'.store.index == y.store.index
    && (if e.status.Alive? then
          y'.store.sessions == y.store.sessions[sid := Buried(e, now)] && y'.log == y.log + [TombstoneSession(sid, now)]
        else y'.store.sessions == y.store.sessions && y'.log == y.log)
  }

  /** The state machine after a session is buried, or was already. */
  lemma TombstonedSystem(p: SessionPolicy, y: System, sid: Sid, now: Timestamp)
    requires sid in y.store.sessions && AllRoomy(p, y.store.sessions)
    ensures var y', e := AfterTombstone(y, sid, now), y.store.sessions[sid];
            BuriesTo(y, y', sid, e, now) && AllRoomy(p, y'.store.sessions)
  {
    assert Roomy(p, y.store.sessions[sid]);
    ReplacedRoomy(p, y.store.sessions, sid, Buried(y.store.sessions[sid], now));
  }

  /** The index and the tables lose these hashes. */
  predicate PurgesTo(y: System, y': System, sid: Sid, purged: seq<TokenHash>) {
    && y'.store.index == AppliedIndex(y.store.index, sid, Effects(None, None, purged))
    && y'.log == y.log + EffectCommands(sid, Effects(None, None, purged))
  }

  predicate ReapsTo(y: System, y': System, sid: Sid, r: Reaped) {
    y'.store.sessions == y.store.sessions[sid := r.entry] && PurgesTo(y, y', sid, r.purged)
  }

  /** What reaping an entry leaves, purges and counts. */
  predicate ReapGives(e: Entry, now: Timestamp, p: SessionPolicy, after: Entry, purged: seq<TokenHash>, retired: nat) {
    Reap(e, now, p).entry == after && Reap(e, now, p).purged == purged && retired == |Leaving(e, now, p)|
  }

  /** What stays and what leaves are all the generations there were. */
  lemma LeavingCount(e: Entry, now: Timestamp, p: SessionPolicy)
    ensures |Reap(e, now, p).entry.gens| + |Leaving(e, now, p)| == |e.gens|
  {
    KeptOrDropped(e.gens, e.currentGen, now, p.grace);
  }

  /** How many generations a sweep retires at an entry. */
  function RetiredAt(p: SessionPolicy, e: Entry, now: Timestamp): nat {
    if Collectible(e, now, p) then 0 else |Leaving(e, now, p)|
  }

  /** And over a listing of the sessions. */
  function RetiredOver(p: SessionPolicy, entries: map<Sid, Entry>, order: seq<Sid>, now: Timestamp): nat {
    if order == [] then 0
    else
      var last := order[|order| - 1];
      RetiredOver(p, entries, order[..|order| - 1], now)
      + if last in entries then RetiredAt(p, entries[last], now) else 0
  }

  /** The state machine after one entry was swept over. */
  lemma ReapedSystem(p: SessionPolicy, y: System, sid: Sid, now: Timestamp)
    requires sid in y.store.sessions && AllRoomy(p, y.store.sessions) && !Collectible(y.store.sessions[sid], now, p)
    ensures var r, y' := Reap(y.store.sessions[sid], now, p), AfterReap(p, y, sid, now);
            ReapsTo(y, y', sid, r) && AllRoomy(p, y'.store.sessions)
  {
    assert Roomy(p, y.store.sessions[sid]);
    ReapIsRoomy(y.store.sessions[sid], now, p);
    ReplacedRoomy(p, y.store.sessions, sid, Reap(y.store.sessions[sid], now, p).entry);
  }

  lemma RemovedRoomy(p: SessionPolicy, entries: map<Sid, Entry>, sid: Sid)
    requires AllRoomy(p, entries)
    ensures AllRoomy(p, entries - {sid})
  {
    forall x | x in entries - {sid} ensures Roomy(p, (entries - {sid})[x]) {
      assert Roomy(p, entries[x]);
    }
  }

  lemma MarkHashesJoin(a: seq<Mark>, b: seq<Mark>)
    ensures MarkHashes(a + b) == MarkHashes(a) + MarkHashes(b)
  {
    forall h | h in MarkHashes(a) + MarkHashes(b) ensures h in MarkHashes(a + b) {
      var m :| (m in a || m in b) && m.hash == h;
      assert m in a + b;
    }
  }

  /** A session's generations and marks, listed, name all its hashes. */
  lemma AllListedOf(e: Entry)
    ensures MarkHashes(Marks(e.gens) + e.retired) == AllHashes(e)
  {
    MarkHashesAppend([], e.gens);
    assert [] + Marks(e.gens) == Marks(e.gens);
    MarkHashesJoin(Marks(e.gens), e.retired);
  }

  /** A listing of `all`, each once. */
  ghost predicate Lists(order: seq<Sid>, all: set<Sid>) {
    (forall i, j :: 0 <= i < j < |order| ==> order[i] != order[j]) && (forall x :: x in order <==> x in all)
  }

  /** Iteration over a concurrent map visits its keys in some order. */
  method Listing(all: set<Sid>) returns (order: seq<Sid>)
    ensures Lists(order, all)
  {
    order := [];
    var rest := all;
    while rest != {}
      invariant rest <= all && Lists(order, all - rest)
    {
      var x :| x in rest;
      order := order + [x];
      rest := rest - {x};
    }
  }

  lemma NextListed(order: seq<Sid>, all: set<Sid>, i: nat)
    requires Lists(order, all) && i < |order|
    ensures order[i] in all && order[i] !in order[..i] && order[..i + 1] == order[..i] + [order[i]]
  {
  }

  lemma {:induction false} ListedCount(order: seq<Sid>, all: set<Sid>)
    requires Lists(order, all)
    ensures |order| == |all|
    decreases |order|
  {
    if order == [] {
      assert all == {};
    } else {
      assert order[0] in all;
      ListedCount(order[1..], all - {order[0]});
    }
  }

  /** The living sessions on a custody. */
  function AliveOn(entries: map<Sid, Entry>, custody: CustodyId): set<Sid> {
    set x | x in entries && entries[x].custody == custody && entries[x].status.Alive?
  }

  /** The entries with those of `gone` buried. */
  ghost predicate BuriesIn(entries: map<Sid, Entry>, after: map<Sid, Entry>, gone: seq<Sid>, now: Timestamp) {
    && after.Keys == entries.Keys
    && forall x :: x in entries ==> after[x] == if x in gone then Buried(entries[x], now) else entries[x]
  }

  /** How many of these sessions are on the custody. */
  function On(entries: map<Sid, Entry>, sids: seq<Sid>, custody: CustodyId): nat {
    if sids == [] then 0
    else
      var last := sids[|sids| - 1];
      On(entries, sids[..|sids| - 1], custody) + if last in entries && entries[last].custody == custody then 1 else 0
  }

  /** The entries with the status on every session of the custody. */
  ghost predicate AllMarked(entries: map<Sid, Entry>, after: map<Sid, Entry>, custody: CustodyId,
                            status: CustodyStatus) {
    && after.Keys == entries.Keys
    && forall x :: x in entries ==> after[x] == WithStatus(entries[x], custody, status)
  }

  ghost predicate StatusTo(y: System, y': System, custody: CustodyId, status: CustodyStatus) {
    && y'.store.index == y.store.index && y'.log == y.log
    && AllMarked(y.store.sessions, y'.store.sessions, custody, status)
  }

  lemma StatusDone(p: SessionPolicy, y: System, custody: CustodyId, status: CustodyStatus)
    requires AllRoomy(p, y.store.sessions)
    ensures var y' := AfterSetCustody(y, custody, status);
            StatusTo(y, y', custody, status) && AllRoomy(p, y'.store.sessions)
  {
    var after := AfterSetCustody(y, custody, status).store.sessions;
    forall x | x in after ensures Roomy(p, after[x]) {
      assert Roomy(p, y.store.sessions[x]);
    }
  }

  ghost predicate AllKills(ops: seq<Op>, now: Timestamp) {
    forall op :: op in ops ==> op.Tombstone? && op.now == now
  }

  /** A batch of kills so far: those sessions buried, one tombstone each, nothing else moved. */
  ghost predicate Killing(p: SessionPolicy, start: System, y: System, gone: seq<Sid>, ops: seq<Op>, now: Timestamp) {
    && y == Run(p, start, ops) && AllKills(ops, now) && |ops| == |gone|
    && BuriesIn(start.store.sessions, y.store.sessions, gone, now) && y.store.index == start.store.index
  }

  lemma KillOneMore(p: SessionPolicy, start: System, y: System, gone: seq<Sid>, ops: seq<Op>, sid: Sid, now: Timestamp)
    requires Killing(p, start, y, gone, ops, now)
    requires sid in start.store.sessions && sid !in gone && start.store.sessions[sid].status.Alive?
    ensures Killing(p, start, AfterTombstone(y, sid, now), gone + [sid], ops + [Op.Tombstone(sid, now)], now)
    ensures sid in y.store.sessions && y.store.sessions[sid].status.Alive?
  {
    BuryOneMore(y, start.store.sessions, gone, sid, now);
    RunSnoc(p, start, NOBODY, ops, Op.Tombstone(sid, now));
  }

  /** One more of a batch buried. */
  lemma BuryOneMore(y: System, entries: map<Sid, Entry>, gone: seq<Sid>, sid: Sid, now: Timestamp)
    requires sid in entries && sid !in gone && entries[sid].status.Alive?
    requires BuriesIn(entries, y.store.sessions, gone, now)
    ensures BuriesIn(entries, AfterTombstone(y, sid, now).store.sessions, gone + [sid], now)
    ensures AfterTombstone(y, sid, now).store.index == y.store.index
    ensures y.store.sessions[sid].status.Alive?
  {
  }

  /** Sweeping over `seen` touched only those, and of them only the sessions that live on. */
  ghost predicate Swept(p: SessionPolicy, before: map<Sid, Entry>, after: map<Sid, Entry>, seen: seq<Sid>,
                        now: Timestamp) {
    && after.Keys == before.Keys
    && forall x :: x in before && (x !in seen || Collectible(before[x], now, p)) ==> after[x] == before[x]
  }

  lemma SweptOneMore(p: SessionPolicy, y: System, before: map<Sid, Entry>, seen: seq<Sid>, sid: Sid, now: Timestamp)
    requires Swept(p, before, y.store.sessions, seen, now) && sid in before && sid !in seen
    ensures Swept(p, before, AfterReap(p, y, sid, now).store.sessions, seen + [sid], now)
    ensures y.store.sessions[sid] == before[sid]
  {
  }

  function Reaps(order: seq<Sid>, now: Timestamp): seq<Op> {
    seq(|order|, i requires 0 <= i < |order| => ReapOne(order[i], now))
  }

  function Collects(order: seq<Sid>, now: Timestamp): seq<Op> {
    seq(|order|, i requires 0 <= i < |order| => CollectOne(order[i], now))
  }

  /** What a caller is told with a token is what the session's entry holds. */
  predicate ReadsOff(entries: map<Sid, Entry>, sid: Sid, meta: SessionMeta) {
    && sid in entries && entries[sid].gens != []
    && var e := entries[sid];
       && meta.sub == e.sub && meta.sid == e.sid && meta.gen == e.currentGen && meta.custody == e.custodyStatus
       && meta.activeUntil == e.gens[|e.gens| - 1].activeUntil
       && meta.refreshUntil == e.idleExp && meta.absoluteUntil == e.absoluteExp
  }

  lemma RefreshReadsOff(p: SessionPolicy, y: System, hash: TokenHash, now: Timestamp, newHash: TokenHash)
    requires Finds(y, hash)
    ensures var sid := y.store.index[hash];
            var r := EntryRefresh(y.store.sessions[sid], hash, now, p, newHash);
            r.result.Issued? ==>
              ReadsOff(AfterRefresh(p, y, hash, now, newHash).store.sessions, sid, r.result.meta)
  {
    MintKeepsCurrent(y.store.sessions[y.store.index[hash]], now, p, newHash);
  }

  /** Past its usable life and its grace, by its own dates. */
  predicate LetGo(e: Entry, now: Timestamp, p: SessionPolicy) {
    if e.status.Tombstoned? then
      e.tombstonedAt.Some? && (p.grace == 0 || now >= e.tombstonedAt.value + p.grace)
    else
      && (now >= e.absoluteExp || now >= e.idleExp || (e.custodyStatus.Dead? && p.onUpstreamRevoked.Kill?))
      && (p.grace == 0 || now >= e.idleExp + p.grace)
  }

  lemma RemovableExactly(p: SessionPolicy, entries: map<Sid, Entry>, now: Timestamp)
    ensures forall x :: x in entries ==> (x in Removable(p, entries, now) <==> LetGo(entries[x], now, p))
  {
  }

  /** Sessions past their usable life and their grace. */
  function Removable(p: SessionPolicy, entries: map<Sid, Entry>, now: Timestamp): set<Sid> {
    set x | x in entries && Collectible(entries[x], now, p)
  }

  ghost predicate ListsRemovable(p: SessionPolicy, entries: map<Sid, Entry>, seen: seq<Sid>, removable: seq<Sid>,
                                 now: Timestamp) {
    && (forall i, j :: 0 <= i < j < |removable| ==> removable[i] != removable[j])
    && forall x :: x in removable <==> x in seen && x in entries && Collectible(entries[x], now, p)
  }

  lemma ListsOneMore(p: SessionPolicy, entries: map<Sid, Entry>, seen: seq<Sid>, removable: seq<Sid>, sid: Sid,
                     now: Timestamp)
    requires ListsRemovable(p, entries, seen, removable, now) && sid !in seen && sid in entries
    ensures ListsRemovable(p, entries, seen + [sid],
                           if Collectible(entries[sid], now, p) then removable + [sid] else removable, now)
  {
  }

  /** What is left to remove is still as it was when it was judged, and everything else stays. */
  ghost predicate Removing(before: map<Sid, Entry>, y: System, removable: seq<Sid>, j: nat)
    requires j <= |removable|
  {
    && (forall x :: x in y.store.sessions <==> x in before && x !in removable[..j])
    && forall x :: x in removable[j..] ==> x in before && x in y.store.sessions && y.store.sessions[x] == before[x]
  }

  lemma RemoveOneMore(p: SessionPolicy, before: map<Sid, Entry>, y: System, removable: seq<Sid>, j: nat, now: Timestamp)
    requires j < |removable| && Removing(before, y, removable, j) && OverSessions(p, before, removable, now)
    ensures removable[j] in y.store.sessions && y.store.sessions[removable[j]] == before[removable[j]]
    ensures Removing(before, AfterCollect(p, y, removable[j], now), removable, j + 1)
  {
    assert removable[j] in removable[j..];
    assert removable[..j + 1] == removable[..j] + [removable[j]];
    assert forall x :: x in removable[j + 1..] ==> x in removable[j..] && x != removable[j];
  }

  /** Sessions judged collectible, each once. */
  ghost predicate OverSessions(p: SessionPolicy, before: map<Sid, Entry>, removable: seq<Sid>, now: Timestamp) {
    && (forall i, k :: 0 <= i < k < |removable| ==> removable[i] != removable[k])
    && forall x :: x in removable ==> x in before && Collectible(before[x], now, p)
  }

  /** The first loop so far. */
  ghost predicate Sweeping(p: SessionPolicy, start: System, y: System, seen: seq<Sid>, now: Timestamp) {
    y == Run(p, start, Reaps(seen, now)) && Swept(p, start.store.sessions, y.store.sessions, seen, now)
  }

  lemma NothingSwept(p: SessionPolicy, start: System, now: Timestamp)
    ensures Sweeping(p, start, start, [], now)
  {
    assert Reaps([], now) == [];
  }

  lemma SweepOneMore(p: SessionPolicy, start: System, y: System, seen: seq<Sid>, sid: Sid, now: Timestamp)
    requires Sweeping(p, start, y, seen, now) && sid in start.store.sessions && sid !in seen
    ensures Sweeping(p, start, AfterReap(p, y, sid, now), seen + [sid], now)
    ensures sid in y.store.sessions && y.store.sessions[sid] == start.store.sessions[sid]
  {
    SweptOneMore(p, y, start.store.sessions, seen, sid, now);
    RunSnoc(p, start, NOBODY, Reaps(seen, now), ReapOne(sid, now));
    assert Reaps(seen + [sid], now) == Reaps(seen, now) + [ReapOne(sid, now)];
  }

  /** The second loop so far. */
  ghost predicate Collecting(p: SessionPolicy, before: map<Sid, Entry>, start: System, ops: seq<Op>, y: System,
                             removable: seq<Sid>, j: nat, now: Timestamp)
    requires j <= |removable|
  {
    y == Run(p, start, ops + Collects(removable[..j], now)) && Removing(before, y, removable, j)
  }

  lemma CollectOneMore(p: SessionPolicy, before: map<Sid, Entry>, start: System, ops: seq<Op>, y: System,
                       removable: seq<Sid>, j: nat, now: Timestamp)
    requires j < |removable| && Collecting(p, before, start, ops, y, removable, j, now)
    requires OverSessions(p, before, removable, now)
    ensures Collecting(p, before, start, ops, AfterCollect(p, y, removable[j], now), removable, j + 1, now)
    ensures removable[j] in y.store.sessions && Collectible(y.store.sessions[removable[j]], now, p)
  {
    var done, op := Collects(removable[..j], now), CollectOne(removable[j], now);
    RemoveOneMore(p, before, y, removable, j, now);
    RunSnoc(p, start, NOBODY, ops + done, op);
    CollectsSnoc(removable, j, ops, now);
    assert removable[j] in removable;
  }

  lemma CollectsSnoc(removable: seq<Sid>, j: nat, ops: seq<Op>, now: Timestamp)
    requires j < |removable|
    ensures ops + Collects(removable[..j + 1], now)
            == ops + Collects(removable[..j], now) + [CollectOne(removable[j], now)]
  {
    assert removable[..j + 1] == removable[..j] + [removable[j]];
    assert Collects(removable[..j + 1], now) == Collects(removable[..j], now) + [CollectOne(removable[j], now)];
  }

  lemma CollectingStarts(p: SessionPolicy, start: System, y: System, order: seq<Sid>, removable: seq<Sid>,
                         now: Timestamp)
    requires Sweeping(p, start, y, order, now) && Lists(order, start.store.sessions.Keys)
    requires ListsRemovable(p, start.store.sessions, order, removable, now)
    ensures Collecting(p, start.store.sessions, start, Reaps(order, now), y, removable, 0, now)
    ensures OverSessions(p, start.store.sessions, removable, now)
    ensures Lists(removable, Removable(p, start.store.sessions, now))
  {
    assert removable[..0] == [] && removable[0..] == removable;
    assert Reaps(order, now) + Collects([], now) == Reaps(order, now);
  }

  lemma CollectingEnds(p: SessionPolicy, start: System, y: System, order: seq<Sid>, removable: seq<Sid>, now: Timestamp)
    requires Collecting(p, start.store.sessions, start, Reaps(order, now), y, removable, |removable|, now)
    requires Lists(removable, Removable(p, start.store.sessions, now))
    ensures y == Run(p, start, Reaps(order, now) + Collects(removable, now))
    ensures y.store.sessions.Keys == start.store.sessions.Keys - Removable(p, start.store.sessions, now)
    ensures |removable| == |Removable(p, start.store.sessions, now)|
  {
    assert removable[..|removable|] == removable;
    ListedCount(removable, Removable(p, start.store.sessions, now));
  }

  /** What a boot brings back, the map's methods can work on. */
  lemma BootIsRoomy(p: SessionPolicy, db: Db, ledger: map<TokenHash, GenRow>)
    requires TablesOk(db, ledger)
    ensures AllRoomy(p, Boot(db).sessions)
  {
    forall sid | sid in Boot(db).sessions ensures Roomy(p, Boot(db).sessions[sid]) {
      BootLadder(db, ledger, sid);
    }
  }

  class SessionMap {
    const p: SessionPolicy
    var sessions: map<Sid, SessionEntry>
    var index: map<TokenHash, Sid>
    var log: seq<Command>  // everything handed to the writer
    ghost var history: System

    ghost function Cells(): set<object>
      reads this`sessions
    {
      set x | x in sessions :: sessions[x]
    }

    /** Each entry is its own object. */
    ghost predicate Separate()
      reads this`sessions
    {
      forall x, y :: x in sessions && y in sessions && x != y ==> sessions[x] != sessions[y]
    }

    /** The entries, as values, are `entries`. */
    ghost predicate Shows(entries: map<Sid, Entry>)
      reads this`sessions, Cells()
    {
      entries.Keys == sessions.Keys && forall x :: x in sessions ==> sessions[x].View() == entries[x]
    }

    /** They are, once those of `done` have the new status. */
    ghost predicate ShowsStatus(entries: map<Sid, Entry>, done: seq<Sid>, custody: CustodyId, status: CustodyStatus)
      reads this`sessions, Cells()
    {
      && entries.Keys == sessions.Keys
      && forall x :: x in sessions ==>
           sessions[x].View() == if x in done then WithStatus(entries[x], custody, status) else entries[x]
    }

    ghost predicate Valid()
      reads this, Cells()
    {
      && Separate() && Shows(history.store.sessions) && AllRoomy(p, history.store.sessions)
      && index == history.store.index && log == history.log
    }

    constructor (policy: SessionPolicy, sent: seq<Command>, ghost start: System)
      requires start.store == Store(map[], map[]) && start.log == sent
      ensures Valid() && p == policy && history == start && sessions == map[]
    {
      p, sessions, index, log, history := policy, map[], map[], sent, start;
    }

    // -------------------------------------------------------------------------------------
    // One entry at a time
    // -------------------------------------------------------------------------------------

    /** Seat an entry in the map. */
    method Seat(sid: Sid, e: Entry, ghost entries: map<Sid, Entry>)
      requires Separate() && Shows(entries)
      modifies this`sessions
      ensures Separate() && Shows(entries[sid := e])
      ensures fresh(Cells() - old(Cells()))
    {
      var cell := new SessionEntry(e);
      sessions := sessions[sid := cell];
    }

    /** What `refresh` does under the entry's lock. */
    method RefreshEntry(sid: Sid, hash: TokenHash, now: Timestamp, newHash: TokenHash, ghost entries: map<Sid, Entry>)
        returns (result: RefreshResult, effects: Effects)
      requires Separate() && Shows(entries) && sid in sessions && Roomy(p, entries[sid])
      modifies sessions[sid]
      ensures var r := EntryRefresh(entries[sid], hash, now, p, newHash);
              result == r.result && effects == r.effects && Shows(entries[sid := r.entry])
    {
      result, effects := sessions[sid].RefreshLocked(hash, now, p, newHash);
    }

    method TombstoneEntry(sid: Sid, now: Timestamp, ghost entries: map<Sid, Entry>) returns (killed: bool)
      requires Separate() && Shows(entries) && sid in sessions
      modifies sessions[sid]
      ensures killed == entries[sid].status.Alive?
      ensures Shows(if killed then entries[sid := Buried(entries[sid], now)] else entries)
    {
      killed := sessions[sid].Tombstone(now);
    }

    method ReapEntry(sid: Sid, now: Timestamp, ghost entries: map<Sid, Entry>)
        returns (purged: seq<TokenHash>, retired: nat, ghost after: Entry)
      requires Separate() && Shows(entries) && sid in sessions && Roomy(p, entries[sid])
      modifies sessions[sid]
      ensures Shows(entries[sid := after]) && ReapGives(entries[sid], now, p, after, purged, retired)
    {
      LeavingCount(entries[sid], now, p);
      var before := |sessions[sid].gens|;
      purged := sessions[sid].ReapGenerations(now, p);
      retired, after := Max(before - |sessions[sid].gens|, 0), sessions[sid].View();
    }

    // -------------------------------------------------------------------------------------
    // The operations
    // -------------------------------------------------------------------------------------

    /** With the entry seated: the index, then the log, the session before its generation. */
    method Announce(sid: Sid, e: Entry, now: Timestamp, newHash: TokenHash, ghost y: System)
      requires Separate() && Shows(y.store.sessions) && AllRoomy(p, y.store.sessions)
      requires index == history.store.index && log == history.log && CreatesTo(p, history, y, sid, e, now, newHash)
      modifies this`index, this`log, this`history
      ensures Valid() && history == y
    {
      index := index[newHash := sid];
      log := log + [InsertSession(sid, SessionRow(e.custody, e.sub, 1, e.idleExp, e.absoluteExp, Alive, now, None))];
      log := log + [InsertGeneration(sid, 1, newHash, now, now + p.genTtl)];
      history := y;
    }

    /** A new entry goes into the map before anything can lead to it. */
    method Admit(sid: Sid, e: Entry, now: Timestamp, newHash: TokenHash, ghost y: System)
      requires Valid() && CreatesTo(p, history, y, sid, e, now, newHash) && AllRoomy(p, y.store.sessions)
      modifies this
      ensures Valid() && history == y && fresh(Cells() - old(Cells()))
    {
      Seat(sid, e, history.store.sessions);
      Announce(sid, e, now, newHash, y);
    }

    method Create(sid: Sid, custody: CustodyId, sub: string, now: Timestamp, newHash: TokenHash)
        returns (token: TokenHash, meta: SessionMeta)
      requires Valid()
      modifies this
      ensures Valid() && history == Created(p, old(history), sid, custody, sub, now, newHash)
      ensures token == newHash
      ensures meta == SessionMeta(sub, sid, 1, now + p.genTtl,
                                  now + if p.idleTtl <= p.absoluteTtl then p.idleTtl else p.absoluteTtl,
                                  now + p.absoluteTtl, Ok)
      ensures fresh(Cells() - old(Cells()))
    {
      var e := NewEntry(sid, custody, sub, now, p, newHash);
      meta := Meta(e);
      token := newHash;
      CreatedSystem(p, history, sid, custody, sub, now, newHash, e);
      Admit(sid, e, now, newHash, Created(p, history, sid, custody, sub, now, newHash));
    }

    /** The map has caught up with `y`. */
    ghost method Commit(y: System)
      requires Separate() && Shows(y.store.sessions) && AllRoomy(p, y.store.sessions)
      requires index == y.store.index && log == y.log
      modifies this`history
      ensures Valid() && history == y
    {
      history := y;
    }

    /** Bring the index up to date and send the same changes to the writer. */
    method Apply(effects: Effects, sid: Sid)
      modifies this`index, this`log
      ensures index == AppliedIndex(old(index), sid, effects)
      ensures log == old(log) + EffectCommands(sid, effects)
    {
      if effects.added.Some? {
        var g := effects.added.value;
        index := index[g.hash := sid];
        log := log + [InsertGeneration(sid, g.genNo, g.hash, g.createdAt, g.activeUntil)];
      }
      if effects.superseded.Some? {
        log := log + [SupersedeGeneration(effects.superseded.value.hash, effects.superseded.value.at)];
      }
      ghost var added, sent := index, log;
      for i := 0 to |effects.purged|
        invariant index == added - set h | h in effects.purged[..i]
        invariant log == sent + Deletes(effects.purged)[..i]
      {
        index := index - {effects.purged[i]};
        log := log + [DeleteGeneration(effects.purged[i])];
        assert effects.purged[..i + 1] == effects.purged[..i] + [effects.purged[i]];
        assert Deletes(effects.purged)[..i + 1] == Deletes(effects.purged)[..i] + [Deletes(effects.purged)[i]];
      }
      assert effects.purged[..|effects.purged|] == effects.purged;
      assert Deletes(effects.purged)[..|effects.purged|] == Deletes(effects.purged);
    }

    method ResolveAt(hash: TokenHash, now: Timestamp) returns (r: Resolution)
      requires Valid()
      ensures r == Resolve(p, history.store, hash, now)
    {
      if hash !in index {
        return Unknown;
      }
      var sid := index[hash];
      if sid !in sessions {
        return Unknown;
      }
      r := Classify(sessions[sid].View(), hash, now, p);
    }

    /** The second half of a refresh, with the entry let go: the index, then the log. */
    method FinishRefresh(sid: Sid, result: RefreshResult, effects: Effects, ghost y: System)
      requires Separate() && Shows(y.store.sessions) && AllRoomy(p, y.store.sessions) && sid in sessions
      requires index == history.store.index && log == history.log
      requires MovesTo(history, y, sid, Refreshed(y.store.sessions[sid], result, effects, []))
      modifies this`index, this`log, this`history
      ensures Valid() && history == y
    {
      if result.Issued? {
        Apply(effects, sid);
        log := log + [UpdateSessionProgress(sid, sessions[sid].currentGen, sessions[sid].idleExp)];
      }
      history := y;
    }

    /** A refresh whose session was found. */
    method RefreshFound(sid: Sid, hash: TokenHash, now: Timestamp, newHash: TokenHash, ghost y: System)
      returns (result: RefreshResult)
      requires Valid() && sid in sessions && Roomy(p, history.store.sessions[sid])
      requires MovesTo(history, y, sid, EntryRefresh(history.store.sessions[sid], hash, now, p, newHash))
      requires AllRoomy(p, y.store.sessions)
      modifies this, Cells()
      ensures Valid() && history == y && sessions == old(sessions)
      ensures result == EntryRefresh(old(history).store.sessions[sid], hash, now, p, newHash).result
    {
      var effects;
      result, effects := RefreshEntry(sid, hash, now, newHash, history.store.sessions);
      FinishRefresh(sid, result, effects, y);
    }

    /** The hot path. */
    method RefreshAt(hash: TokenHash, now: Timestamp, newHash: TokenHash) returns (result: RefreshResult)
      requires Valid()
      modifies this, Cells()
      ensures Valid() && history == AfterRefresh(p, old(history), hash, now, newHash) && sessions == old(sessions)
      ensures if Finds(old(history), hash)
              then result == EntryRefresh(old(history).store.sessions[old(history).store.index[hash]], hash, now, p,
                                          newHash).result
              else result == Refused(DeniedUnknown)
      ensures result.Issued? ==> Finds(old(history), hash)
                                 && ReadsOff(history.store.sessions, old(history).store.index[hash], result.meta)
    {
      if hash !in index || index[hash] !in sessions {
        history := AfterRefresh(p, history, hash, now, newHash);
        return Refused(DeniedUnknown);
      }
      assert Roomy(p, history.store.sessions[index[hash]]);
      RefreshedSystem(p, history, hash, now, newHash);
      RefreshReadsOff(p, history, hash, now, newHash);
      result := RefreshFound(index[hash], hash, now, newHash, AfterRefresh(p, history, hash, now, newHash));
    }

    /** With the entry buried and let go: the log. */
    method FinishTombstone(sid: Sid, now: Timestamp, killed: bool, ghost y: System)
      requires Separate() && Shows(y.store.sessions) && AllRoomy(p, y.store.sessions)
      requires index == y.store.index && y.log == if killed then log + [TombstoneSession(sid, now)] else log
      modifies this`log, this`history
      ensures Valid() && history == y
    {
      if killed {
        log := log + [TombstoneSession(sid, now)];
      }
      history := y;
    }

    method TombstoneFound(sid: Sid, now: Timestamp, ghost y: System) returns (killed: bool)
      requires Valid() && sid in sessions && AllRoomy(p, y.store.sessions)
      requires BuriesTo(history, y, sid, history.store.sessions[sid], now)
      modifies this, Cells()
      ensures Valid() && history == y && sessions == old(sessions)
      ensures killed == old(history).store.sessions[sid].status.Alive?
    {
      killed := TombstoneEntry(sid, now, history.store.sessions);
      FinishTombstone(sid, now, killed, y);
    }

    /** One write ends every generation of a session at once. */
    method Tombstone(sid: Sid, now: Timestamp) returns (killed: bool)
      requires Valid()
      modifies this, Cells()
      ensures Valid() && history == AfterTombstone(old(history), sid, now) && sessions == old(sessions)
      ensures killed <==> sid in old(history).store.sessions && old(history).store.sessions[sid].status.Alive?
    {
      if sid in sessions {
        TombstonedSystem(p, history, sid, now);
        killed := TombstoneFound(sid, now, AfterTombstone(history, sid, now));
      } else {
        killed := false;
        history := AfterTombstone(history, sid, now);
      }
    }

    /** With the entry reaped and let go: the index and the tables. */
    method FinishReap(sid: Sid, purged: seq<TokenHash>, ghost y: System)
      requires Separate() && Shows(y.store.sessions) && AllRoomy(p, y.store.sessions)
      requires index == history.store.index && log == history.log
      requires PurgesTo(history, y, sid, purged)
      modifies this`index, this`log, this`history
      ensures Valid() && history == y
    {
      Apply(Effects(None, None, purged), sid);
      history := y;
    }

    /** A session that lives on: its dead generations go, from the entry, the index and the tables,
        so that `after` is left of it and `purges` are forgotten. */
    method ReapFound(sid: Sid, now: Timestamp, ghost y: System, ghost after: Entry, ghost purges: seq<TokenHash>)
      returns (retired: nat)
      requires Valid() && sid in sessions && Roomy(p, history.store.sessions[sid]) && AllRoomy(p, y.store.sessions)
      requires y.store.sessions == history.store.sessions[sid := after] && PurgesTo(history, y, sid, purges)
      requires exists k :: ReapGives(history.store.sessions[sid], now, p, after, purges, k)
      modifies this, Cells()
      ensures Valid() && history == y && sessions == old(sessions)
      ensures ReapGives(old(history).store.sessions[sid], now, p, after, purges, retired)
    {
      ghost var seen;
      var purged;
      purged, retired, seen := ReapEntry(sid, now, history.store.sessions);
      FinishReap(sid, purged, y);
    }

    /** The sweep's first loop at one entry: leave it for removal, or drop its dead generations. */
    method ReapStep(sid: Sid, now: Timestamp) returns (collectible: bool, retired: nat)
      requires Valid() && sid in sessions
      modifies this, Cells()
      ensures Valid() && history == AfterReap(p, old(history), sid, now) && sessions == old(sessions)
      ensures collectible == Collectible(old(history).store.sessions[sid], now, p)
      ensures retired == RetiredAt(p, old(history).store.sessions[sid], now)
    {
      collectible := Collectible(sessions[sid].View(), now, p);
      if collectible {
        retired := 0;
        history := AfterReap(p, history, sid, now);
      } else {
        assert Roomy(p, history.store.sessions[sid]);
        ReapedSystem(p, history, sid, now);
        ghost var e := history.store.sessions[sid];
        ghost var r := Reap(e, now, p);
        assert ReapGives(e, now, p, r.entry, r.purged, |Leaving(e, now, p)|);
        retired := ReapFound(sid, now, AfterReap(p, history, sid, now), r.entry, r.purged);
      }
    }

    method Forget(marks: seq<Mark>)
      modifies this`index
      ensures index == old(index) - MarkHashes(marks)
    {
      for i := 0 to |marks|
        invariant index == old(index) - MarkHashes(marks[..i])
      {
        index := index - {marks[i].hash};
        assert marks[..i + 1] == marks[..i] + [marks[i]];
        MarkHashesJoin(marks[..i], [marks[i]]);
      }
      assert marks[..|marks|] == marks;
    }

    /** Its second loop at one entry: the session goes, and every hash it has a claim on. */
    method CollectStep(sid: Sid, now: Timestamp)
      requires Valid() && sid in sessions && Collectible(history.store.sessions[sid], now, p)
      modifies this
      ensures Valid() && history == AfterCollect(p, old(history), sid, now) && sessions == old(sessions) - {sid}
    {
      ghost var y := AfterCollect(p, history, sid, now);
      var e := sessions[sid].View();
      RemovedRoomy(p, history.store.sessions, sid);
      AllListedOf(e);
      sessions := sessions - {sid};
      Forget(Marks(e.gens) + e.retired);
      history := y;
    }

    // -------------------------------------------------------------------------------------
    // Loops over the sessions
    // -------------------------------------------------------------------------------------

    /** One of a batch of kills. */
    method KillNext(sid: Sid, now: Timestamp, ghost start: System, ghost gone: seq<Sid>, ghost ops: seq<Op>)
      returns (killed: bool)
      requires Valid() && Killing(p, start, history, gone, ops, now)
      requires sid in start.store.sessions && sid !in gone && start.store.sessions[sid].status.Alive?
      modifies this, Cells()
      ensures Valid() && sessions == old(sessions) && killed
      ensures Killing(p, start, history, gone + [sid], ops + [Op.Tombstone(sid, now)], now)
    {
      KillOneMore(p, start, history, gone, ops, sid, now);
      killed := Tombstone(sid, now);
    }

    /** Every living session on a custody is buried, and counted. */
    method TombstoneByCustody(custody: CustodyId, now: Timestamp)
      returns (count: nat, ghost order: seq<Sid>, ghost ops: seq<Op>)
      requires Valid()
      modifies this, Cells()
      ensures Valid() && sessions == old(sessions)
      ensures Lists(order, AliveOn(old(history).store.sessions, custody))
              && Killing(p, old(history), history, order, ops, now)
      ensures count == |AliveOn(old(history).store.sessions, custody)|
    {
      var doomed := set x | x in sessions && sessions[x].custody == custody && sessions[x].status.Alive?;
      var sids := Listing(doomed);
      ghost var start := history;
      assert doomed == AliveOn(start.store.sessions, custody);
      order := sids;
      count, ops := 0, [];
      for i := 0 to |sids|
        invariant Valid() && sessions == old(sessions)
        invariant Killing(p, start, history, sids[..i], ops, now) && count == i
      {
        NextListed(sids, doomed, i);
        var killed := KillNext(sids[i], now, start, sids[..i], ops);
        ops := ops + [Op.Tombstone(sids[i], now)];
        if killed {
          count := count + 1;
        }
      }
      assert sids[..|sids|] == sids;
      ListedCount(sids, doomed);
    }

    method StatusNext(sid: Sid, custody: CustodyId, status: CustodyStatus, ghost entries: map<Sid, Entry>,
                      ghost done: seq<Sid>)
        returns (matches: bool)
      requires Separate() && ShowsStatus(entries, done, custody, status) && sid in sessions && sid !in done
      modifies sessions[sid]
      ensures ShowsStatus(entries, done + [sid], custody, status) && matches == (entries[sid].custody == custody)
    {
      matches := sessions[sid].custody == custody;
      if matches {
        sessions[sid].custodyStatus := status;
      }
    }

    /** The loop over every entry, under each one's lock. */
    method StatusLoop(custody: CustodyId, status: CustodyStatus, ghost entries: map<Sid, Entry>)
        returns (touched: nat, ghost order: seq<Sid>)
      requires Separate() && Shows(entries)
      modifies Cells()
      ensures Lists(order, entries.Keys) && touched == On(entries, order, custody)
      ensures ShowsStatus(entries, order, custody, status)
    {
      var sids := Listing(sessions.Keys);
      order := sids;
      touched := 0;
      for i := 0 to |sids|
        invariant ShowsStatus(entries, sids[..i], custody, status) && touched == On(entries, sids[..i], custody)
      {
        NextListed(sids, sessions.Keys, i);
        var matches := StatusNext(sids[i], custody, status, entries, sids[..i]);
        if matches {
          touched := touched + 1;
        }
      }
      assert sids[..|sids|] == sids;
    }

    /** Once every session has been visited, they all show it. */
    lemma StatusShown(entries: map<Sid, Entry>, after: map<Sid, Entry>, order: seq<Sid>, custody: CustodyId,
                      status: CustodyStatus)
      requires Lists(order, entries.Keys) && ShowsStatus(entries, order, custody, status)
      requires AllMarked(entries, after, custody, status)
      ensures Shows(after)
    {
    }

    method StatusAll(custody: CustodyId, status: CustodyStatus, ghost y: System)
        returns (touched: nat, ghost order: seq<Sid>)
      requires Valid() && StatusTo(history, y, custody, status) && AllRoomy(p, y.store.sessions)
      modifies this`history, Cells()
      ensures Valid() && history == y && sessions == old(sessions)
      ensures Lists(order, sessions.Keys) && touched == On(old(history).store.sessions, order, custody)
    {
      touched, order := StatusLoop(custody, status, history.store.sessions);
      StatusShown(history.store.sessions, y.store.sessions, order, custody, status);
      Commit(y);
    }

    /** Upstream health, recorded on every session of the custody. */
    method SetCustodyStatus(custody: CustodyId, status: CustodyStatus) returns (touched: nat, ghost order: seq<Sid>)
      requires Valid()
      modifies this`history, Cells()
      ensures Valid() && history == AfterSetCustody(old(history), custody, status) && sessions == old(sessions)
      ensures Lists(order, sessions.Keys) && touched == On(old(history).store.sessions, order, custody)
    {
      StatusDone(p, history, custody, status);
      touched, order := StatusAll(custody, status, AfterSetCustody(history, custody, status));
    }

    method ReapNext(sid: Sid, now: Timestamp, ghost start: System, ghost seen: seq<Sid>)
        returns (collectible: bool, retired: nat)
      requires Valid() && Sweeping(p, start, history, seen, now) && sid in start.store.sessions && sid !in seen
      modifies this, Cells()
      ensures Valid() && sessions == old(sessions) && Sweeping(p, start, history, seen + [sid], now)
      ensures collectible == Collectible(start.store.sessions[sid], now, p)
      ensures retired == RetiredAt(p, start.store.sessions[sid], now)
    {
      SweepOneMore(p, start, history, seen, sid, now);
      collectible, retired := ReapStep(sid, now);
    }

    /** The sweep's first loop. */
    method SweepEntries(now: Timestamp) returns (removable: seq<Sid>, retired: nat, ghost order: seq<Sid>)
      requires Valid()
      modifies this, Cells()
      ensures Valid() && sessions == old(sessions) && Lists(order, sessions.Keys)
      ensures Sweeping(p, old(history), history, order, now)
      ensures ListsRemovable(p, old(history).store.sessions, order, removable, now)
      ensures retired == RetiredOver(p, old(history).store.sessions, order, now)
    {
      var sids := Listing(sessions.Keys);
      ghost var start := history;
      removable, retired, order := [], 0, sids;
      NothingSwept(p, start, now);
      for i := 0 to |sids|
        invariant Valid() && sessions == old(sessions) && Sweeping(p, start, history, sids[..i], now)
        invariant ListsRemovable(p, start.store.sessions, sids[..i], removable, now)
        invariant retired == RetiredOver(p, start.store.sessions, sids[..i], now)
      {
        NextListed(sids, sessions.Keys, i);
        var collectible, n := ReapNext(sids[i], now, start, sids[..i]);
        ListsOneMore(p, start.store.sessions, sids[..i], removable, sids[i], now);
        if collectible {
          removable := removable + [sids[i]];
        }
        retired := retired + n;
      }
      assert sids[..|sids|] == sids;
    }

    method CollectNext(removable: seq<Sid>, j: nat, now: Timestamp, ghost before: map<Sid, Entry>,
                       ghost start: System, ghost ops: seq<Op>)
      requires Valid() && j < |removable| && Collecting(p, before, start, ops, history, removable, j, now)
      requires OverSessions(p, before, removable, now)
      modifies this
      ensures Valid() && Collecting(p, before, start, ops, history, removable, j + 1, now)
    {
      CollectOneMore(p, before, start, ops, history, removable, j, now);
      CollectStep(removable[j], now);
    }

    /** Its second loop. */
    method SweepSessions(removable: seq<Sid>, now: Timestamp, ghost before: map<Sid, Entry>,
                         ghost start: System, ghost ops: seq<Op>)
      requires Valid() && Collecting(p, before, start, ops, history, removable, 0, now)
      requires OverSessions(p, before, removable, now)
      modifies this
      ensures Valid() && Collecting(p, before, start, ops, history, removable, |removable|, now)
    {
      for j := 0 to |removable|
        invariant Valid() && Collecting(p, before, start, ops, history, removable, j, now)
      {
        CollectNext(removable, j, now, before, start, ops);
      }
    }

    /** Periodic collection: every session reaped or, past its usable life and its grace, removed. */
    method Sweep(now: Timestamp) returns (removed: nat, retired: nat, ghost order: seq<Sid>, ghost gone: seq<Sid>)
      requires Valid()
      modifies this, Cells()
      ensures Valid() && Lists(order, old(sessions).Keys)
      ensures Lists(gone, Removable(p, old(history).store.sessions, now))
      ensures history == Run(p, old(history), Reaps(order, now) + Collects(gone, now))
      ensures sessions.Keys == old(sessions).Keys - Removable(p, old(history).store.sessions, now)
      ensures forall sid :: sid in old(history).store.sessions ==>
                (sid in sessions <==> !LetGo(old(history).store.sessions[sid], now, p))
      ensures removed == |Removable(p, old(history).store.sessions, now)|
      ensures retired == RetiredOver(p, old(history).store.sessions, order, now)
    {
      ghost var start := history;
      removed, retired, order, gone := 0, 0, [], [];
      var removable;
      removable, retired, order := SweepEntries(now);
      gone := removable;
      CollectingStarts(p, start, history, order, removable, now);
      SweepSessions(removable, now, start.store.sessions, start, Reaps(order, now));
      CollectingEnds(p, start, history, order, removable, now);
      RemovableExactly(p, start.store.sessions, now);
      removed := |removable|;
    }

    // -------------------------------------------------------------------------------------
    // Boot
    // -------------------------------------------------------------------------------------

    /** Reinstate one session from its rows. Nothing is written back, and nothing judged expired. */
    method RehydrateSession(r: Restored, ghost entries: map<Sid, Entry>)
      returns (ok: bool, ghost ordered: seq<Generation>)
      requires Separate() && Shows(entries) && NumbersDiffer(r.gens)
      modifies this`sessions, this`index
      ensures ok <==> r.gens != []
      ensures Separate() && fresh(Cells() - old(Cells()))
      ensures if !ok then sessions == old(sessions) && index == old(index) && Shows(entries)
              else && Ascending(ordered) && (forall g :: g in ordered <==> g in r.gens)
                   && Shows(entries[r.sid := ReinstatedEntry(r.sid, r.row, ordered)])
                   && index == Indexed(old(index), ordered, r.sid)
    {
      ordered := [];
      if r.gens == [] {
        return false, ordered;
      }
      var gens := SortByNumber(r.gens);
      ordered := gens;
      for i := 0 to |gens|
        invariant index == Indexed(old(index), gens[..i], r.sid)
        invariant sessions == old(sessions)
      {
        assert gens[..i + 1][..i] == gens[..i];
        index := index[gens[i].hash := r.sid];
      }
      assert gens[..|gens|] == gens;
      Seat(r.sid, ReinstatedEntry(r.sid, r.row, gens), entries);
      ok := true;
    }

    method RehydrateNext(r: Restored, ghost db: Db, ghost ledger: map<TokenHash, GenRow>, ghost back: set<Sid>,
                         ghost entries: map<Sid, Entry>)
        returns (ok: bool, ghost more: map<Sid, Entry>)
      requires Separate() && Shows(entries) && TablesOk(db, ledger) && ReadsBack(db, r)
               && Booted(db, back, entries, index)
      modifies this`sessions, this`index
      ensures ok && Separate() && Shows(more) && Booted(db, back + {r.sid}, more, index)
              && fresh(Cells() - old(Cells()))
    {
      RowsDiffer(db, ledger, r);
      ghost var ordered;
      ghost var before := index;
      ok, ordered := RehydrateSession(r, entries);
      BootsNext(db, ledger, back, r, entries, before, ordered);
      more := entries[r.sid := ReinstatedEntry(r.sid, r.row, ordered)];
    }

    method RehydrateLoop(rows: seq<Restored>, ghost db: Db, ghost ledger: map<TokenHash, GenRow>)
        returns (restored: nat, ghost entries: map<Sid, Entry>)
      requires sessions == map[] && index == map[] && TablesOk(db, ledger) && ReadsAll(db, rows)
      modifies this`sessions, this`index
      ensures Separate() && Shows(entries) && Booted(db, SidsOf(rows), entries, index) && restored == |rows|
    {
      entries := map[];
      restored := 0;
      NothingBooted(db);
      for i := 0 to |rows|
        invariant Separate() && Shows(entries) && restored == i && Booted(db, SidsOf(rows[..i]), entries, index)
      {
        RowsNext(db, rows, i);
        var ok;
        ok, entries := RehydrateNext(rows[i], db, ledger, SidsOf(rows[..i]), entries);
        if ok {
          restored := restored + 1;
        }
      }
      assert rows[..|rows|] == rows;
    }

    /** The boot loop over everything the tables hold alive. */
    method RehydrateSessions(rows: seq<Restored>, ghost db: Db, ghost ledger: map<TokenHash, GenRow>)
      returns (restored: nat)
      requires Valid() && sessions == map[] && index == map[] && TablesOk(db, ledger) && ReadsAll(db, rows)
      modifies this
      ensures Valid() && history == old(history).(store := Boot(db)) && restored == |rows|
    {
      ghost var entries;
      restored, entries := RehydrateLoop(rows, db, ledger);
      ListsEverySession(db, rows);
      AllBooted(db, ledger, SidsOf(rows), entries, index);
      BootIsRoomy(p, db, ledger);
      history := history.(store := Boot(db));
    }
  }
}
