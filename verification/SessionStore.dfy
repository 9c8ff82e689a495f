/** The session map as a value: the token index in front of the entries, the durable commands each
    operation emits, the tables those commands build, and what a boot reads back from them. */
module SessionStore {
  import opened Prelude
  import opened Custody
  import opened SessionModel

  datatype Store = Store(sessions: map<Sid, Entry>, index: map<TokenHash, Sid>)

  /** Classify a presented cookie. */
  function Resolve(p: SessionPolicy, s: Store, hash: TokenHash, now: Timestamp): Resolution {
    if hash in s.index && s.index[hash] in s.sessions then Classify(s.sessions[s.index[hash]], hash, now, p)
    else Unknown
  }

  predicate Authenticates(p: SessionPolicy, s: Store, hash: TokenHash, now: Timestamp) {
    Resolve(p, s, hash, now).Authenticates()
  }

  // ---------------------------------------------------------------------------------------
  // Durable commands and the tables they build
  // ---------------------------------------------------------------------------------------

  datatype Command =
    | InsertSession(sid: Sid, row: SessionRow)
    | InsertGeneration(sid: Sid, genNo: nat, hash: TokenHash, createdAt: Timestamp, activeUntil: Timestamp)
    | SupersedeGeneration(hash: TokenHash, at: Timestamp)
    | DeleteGeneration(hash: TokenHash)
    | UpdateSessionProgress(sid: Sid, currentGen: nat, idleExp: Timestamp)
    | TombstoneSession(sid: Sid, at: Timestamp)

  datatype SessionRow = SessionRow(
    custody: CustodyId,
    sub: string,
    currentGen: nat,
    idleExp: Timestamp,
    absoluteExp: Timestamp,
    status: SessionStatus,
    createdAt: Timestamp,
    tombstonedAt: Option<Timestamp>)

  datatype GenRow = GenRow(sid: Sid, gen: Generation)

  datatype Db = Db(sessions: map<Sid, SessionRow>, gens: map<TokenHash, GenRow>)

  const EMPTY_DB := Db(map[], map[])

  /** One statement. An update or delete of a row that is not there changes nothing. */
  function Execute(db: Db, c: Command): Db {
    match c
    case InsertSession(sid, row) => db.(sessions := db.sessions[sid := row])
    case InsertGeneration(sid, genNo, hash, createdAt, activeUntil) =>
      db.(gens := db.gens[hash := GenRow(sid, Generation(genNo, hash, createdAt, activeUntil, None))])
    case SupersedeGeneration(hash, at) =>
      if hash !in db.gens then db
      else db.(gens := db.gens[hash := db.gens[hash].(gen := db.gens[hash].gen.(supersededAt := Some(at)))])
    case DeleteGeneration(hash) => db.(gens := db.gens - {hash})
    case UpdateSessionProgress(sid, currentGen, idleExp) =>
      if sid !in db.sessions then db
      else db.(sessions := db.sessions[sid := db.sessions[sid].(currentGen := currentGen, idleExp := idleExp)])
    case TombstoneSession(sid, at) =>
      if sid !in db.sessions then db
      else
        var row := db.sessions[sid];
        var first := if row.tombstonedAt.Some? then row.tombstonedAt else Some(at);
        db.(sessions := db.sessions[sid := row.(status := Tombstoned, tombstonedAt := first)])
  }

  /** The tables after a log of commands. */
  function Replay(log: seq<Command>): Db {
    if log == [] then EMPTY_DB else Execute(Replay(log[..|log| - 1]), log[|log| - 1])
  }

  function ExecuteAll(db: Db, commands: seq<Command>): Db
    decreases |commands|
  {
    if commands == [] then db else ExecuteAll(Execute(db, commands[0]), commands[1..])
  }

  lemma {:induction false} ReplayAppends(log: seq<Command>, more: seq<Command>)
    ensures Replay(log + more) == ExecuteAll(Replay(log), more)
    decreases |more|
  {
    if more == [] {
      assert log + more == log;
    } else {
      assert (log + [more[0]])[..|log|] == log;
      ReplayAppends(log + [more[0]], more[1..]);
      assert log + [more[0]] + more[1..] == log + more;
    }
  }

  // ---------------------------------------------------------------------------------------
  // `apply`: the index and the log move together
  // ---------------------------------------------------------------------------------------

  function AppliedIndex(index: map<TokenHash, Sid>, sid: Sid, effects: Effects): map<TokenHash, Sid> {
    (if effects.added.Some? then index[effects.added.value.hash := sid] else index)
    - (set h | h in effects.purged)
  }

  function InsertCommand(sid: Sid, g: Generation): Command {
    InsertGeneration(sid, g.genNo, g.hash, g.createdAt, g.activeUntil)
  }

  function Deletes(purged: seq<TokenHash>): seq<Command> {
    seq(|purged|, i requires 0 <= i < |purged| => DeleteGeneration(purged[i]))
  }

  function EffectCommands(sid: Sid, effects: Effects): seq<Command> {
    (if effects.added.Some? then [InsertCommand(sid, effects.added.value)] else [])
    + (if effects.superseded.Some?
       then [SupersedeGeneration(effects.superseded.value.hash, effects.superseded.value.at)] else [])
    + Deletes(effects.purged)
  }

  // ---------------------------------------------------------------------------------------
  // The system: the map, its log, and what the history has been
  // ---------------------------------------------------------------------------------------

  /** `ledger` holds every generation ever minted, at its latest dates; `sids` every session ever
      created; `capped` the hashes the cap pushed out unexpired; `revoked` the custodies ever
      reported dead; `clock` the latest instant an operation used. */
  datatype System = System(
    store: Store,
    log: seq<Command>,
    clock: Timestamp,
    ledger: map<TokenHash, GenRow>,
    sids: set<Sid>,
    capped: set<TokenHash>,
    revoked: set<CustodyId>)

  function Initial(start: Timestamp): System {
    System(Store(map[], map[]), [], start, map[], {}, {}, {})
  }

  datatype Op =
    | Create(sid: Sid, custody: CustodyId, sub: string, now: Timestamp, newHash: TokenHash)
    | Refresh(hash: TokenHash, now: Timestamp, newHash: TokenHash)
    | Tombstone(sid: Sid, now: Timestamp)
    | SetCustody(custody: CustodyId, status: CustodyStatus)
    | ReapOne(sid: Sid, now: Timestamp)       // one iteration of the sweep's first loop
    | CollectOne(sid: Sid, now: Timestamp)    // one iteration of its second
    | Restart                                 // a boot from the tables the log has built

  /** The clock runs forward, and new hashes and sids are fresh. */
  predicate Valid(y: System, op: Op) {
    match op
    case Create(sid, _, _, now, newHash) => y.clock <= now && sid !in y.sids && newHash !in y.ledger
    case Refresh(_, now, newHash) => y.clock <= now && newHash !in y.ledger
    case Tombstone(_, now) => y.clock <= now
    case SetCustody(_, _) => true
    case ReapOne(_, now) => y.clock <= now
    case CollectOne(_, now) => y.clock <= now
    case Restart => true
  }

  function NewRow(e: Entry, now: Timestamp): SessionRow {
    SessionRow(e.custody, e.sub, e.currentGen, e.idleExp, e.absoluteExp, Alive, now, None)
  }

  function Created(p: SessionPolicy, y: System, sid: Sid, custody: CustodyId, sub: string, now: Timestamp,
                   newHash: TokenHash): System {
    var e := NewEntry(sid, custody, sub, now, p, newHash);
    y.(store := Store(y.store.sessions[sid := e], y.store.index[newHash := sid]),
       log := y.log + [InsertSession(sid, NewRow(e, now)), InsertCommand(sid, e.gens[0])],
       clock := now,
       ledger := y.ledger[newHash := GenRow(sid, e.gens[0])],
       sids := y.sids + {sid})
  }

  /** The ledger follows the same effects as the tables, except that it forgets nothing. */
  function Entered(ledger: map<TokenHash, GenRow>, sid: Sid, effects: Effects): map<TokenHash, GenRow> {
    var more := if effects.added.Some?
                then ledger[effects.added.value.hash := GenRow(sid, effects.added.value)] else ledger;
    if effects.superseded.Some? && effects.superseded.value.hash in more then
      var hash, at := effects.superseded.value.hash, effects.superseded.value.at;
      more[hash := more[hash].(gen := more[hash].gen.(supersededAt := Some(at)))]
    else more
  }

  function HashSet(gens: seq<Generation>): set<TokenHash> {
    set g | g in gens :: g.hash
  }

  /** An entry mutation followed at once by its `apply`. */
  function Mutated(y: System, sid: Sid, e: Entry, effects: Effects, capped: seq<Generation>, now: Timestamp): System {
    y.(store := Store(y.store.sessions[sid := e], AppliedIndex(y.store.index, sid, effects)),
       log := y.log + EffectCommands(sid, effects),
       clock := now,
       ledger := Entered(y.ledger, sid, effects),
       capped := y.capped + HashSet(capped))
  }

  /** The entry a presented hash leads to. */
  predicate Finds(y: System, hash: TokenHash) {
    && hash in y.store.index
    && y.store.index[hash] in y.store.sessions
    && y.store.sessions[y.store.index[hash]].gens != []
  }

  function AfterRefresh(p: SessionPolicy, y: System, hash: TokenHash, now: Timestamp, newHash: TokenHash): System {
    if !Finds(y, hash) then y.(clock := now)
    else
      var sid := y.store.index[hash];
      var r := EntryRefresh(y.store.sessions[sid], hash, now, p, newHash);
      if r.result.Refused? then y.(clock := now)
      else
        var y' := Mutated(y, sid, r.entry, r.effects, r.capped, now);
        y'.(log := y'.log + [UpdateSessionProgress(sid, r.entry.currentGen, r.entry.idleExp)])
  }

  function AfterTombstone(y: System, sid: Sid, now: Timestamp): System {
    if sid in y.store.sessions && y.store.sessions[sid].status.Alive? then
      y.(store := y.store.(sessions := y.store.sessions[sid := Buried(y.store.sessions[sid], now)]),
         log := y.log + [TombstoneSession(sid, now)],
         clock := now)
    else y.(clock := now)
  }

  function WithStatus(e: Entry, custody: CustodyId, status: CustodyStatus): Entry {
    if e.custody == custody then e.(custodyStatus := status) else e
  }

  function AfterSetCustody(y: System, custody: CustodyId, status: CustodyStatus): System {
    y.(store := y.store.(sessions :=
         map sid | sid in y.store.sessions :: WithStatus(y.store.sessions[sid], custody, status)),
       revoked := if status.Dead? then y.revoked + {custody} else y.revoked)
  }

  function AfterReap(p: SessionPolicy, y: System, sid: Sid, now: Timestamp): System {
    if sid in y.store.sessions && !Collectible(y.store.sessions[sid], now, p) then
      var r := Reap(y.store.sessions[sid], now, p);
      Mutated(y, sid, r.entry, Effects(None, None, r.purged), r.capped, now)
    else y.(clock := now)
  }

  /** Every hash the session has any claim on. */
  function AllHashes(e: Entry): set<TokenHash> {
    HashSet(e.gens) + set m | m in e.retired :: m.hash
  }

  function AfterCollect(p: SessionPolicy, y: System, sid: Sid, now: Timestamp): System {
    if sid in y.store.sessions && Collectible(y.store.sessions[sid], now, p) then
      y.(store := Store(y.store.sessions - {sid}, y.store.index - AllHashes(y.store.sessions[sid])), clock := now)
    else y.(clock := now)
  }

  // ---------------------------------------------------------------------------------------
  // Boot
  // ---------------------------------------------------------------------------------------

  /** The generation rows of one session. */
  function RowsOf(db: Db, sid: Sid): set<Generation> {
    set h | h in db.gens && db.gens[h].sid == sid :: db.gens[h].gen
  }

  lemma {:induction false} OldestExists(gs: set<Generation>)
    requires gs != {}
    ensures exists g :: IsOldest(gs, g)
    decreases |gs|
  {
    var g :| g in gs;
    if gs == {g} {
      assert IsOldest(gs, g);
    } else {
      OldestExists(gs - {g});
      var o :| IsOldest(gs - {g}, o);
      OldestOfTwo(gs, g, o);
    }
  }

  predicate IsOldest(gs: set<Generation>, g: Generation) {
    g in gs && forall x :: x in gs ==> g.genNo <= x.genNo
  }

  lemma OldestOfTwo(gs: set<Generation>, g: Generation, o: Generation)
    requires g in gs && IsOldest(gs - {g}, o)
    ensures IsOldest(gs, if o.genNo <= g.genNo then o else g)
  {
    forall x | x in gs ensures (if o.genNo <= g.genNo then o else g).genNo <= x.genNo {
      assert x == g || x in gs - {g};
    }
  }

  ghost function Oldest(gs: set<Generation>): (g: Generation)
    requires gs != {}
    ensures g in gs && forall x :: x in gs ==> g.genNo <= x.genNo
  {
    OldestExists(gs);
    var g :| IsOldest(gs, g);
    g
  }

  /** Rows in `ORDER BY gen_no`. */
  ghost function ByGenNo(gs: set<Generation>): seq<Generation> {
    if gs == {} then [] else [Oldest(gs)] + ByGenNo(gs - {Oldest(gs)})
  }

  /** An entry as a boot reinstates it: no plaintext, assumed healthy, nothing retired. */
  function ReinstatedEntry(sid: Sid, row: SessionRow, gens: seq<Generation>): Entry {
    Entry(sid, row.custody, row.sub, gens, row.currentGen, None, row.idleExp, row.absoluteExp, Alive, None, Ok, [])
  }

  /** The sessions a boot brings back: alive, with at least one generation row. */
  predicate Restorable(db: Db, sid: Sid) {
    sid in db.sessions && db.sessions[sid].status.Alive? && RowsOf(db, sid) != {}
  }

  ghost function Boot(db: Db): Store {
    Store(map sid | sid in db.sessions && Restorable(db, sid) ::
            ReinstatedEntry(sid, db.sessions[sid], ByGenNo(RowsOf(db, sid))),
          map h | h in db.gens && Restorable(db, db.gens[h].sid) :: db.gens[h].sid)
  }

  // ---------------------------------------------------------------------------------------
  // Steps and runs
  // ---------------------------------------------------------------------------------------

  ghost function Step(p: SessionPolicy, y: System, op: Op): System {
    match op
    case Create(sid, custody, sub, now, newHash) => Created(p, y, sid, custody, sub, now, newHash)
    case Refresh(hash, now, newHash) => AfterRefresh(p, y, hash, now, newHash)
    case Tombstone(sid, now) => AfterTombstone(y, sid, now)
    case SetCustody(custody, status) => AfterSetCustody(y, custody, status)
    case ReapOne(sid, now) => AfterReap(p, y, sid, now)
    case CollectOne(sid, now) => AfterCollect(p, y, sid, now)
    case Restart => y.(store := Boot(Replay(y.log)))
  }

  ghost predicate ValidRun(p: SessionPolicy, y: System, ops: seq<Op>)
    decreases |ops|
  {
    ops == [] || (Valid(y, ops[0]) && ValidRun(p, Step(p, y, ops[0]), ops[1..]))
  }

  ghost function Run(p: SessionPolicy, y: System, ops: seq<Op>): System
    decreases |ops|
  {
    if ops == [] then y else Run(p, Step(p, y, ops[0]), ops[1..])
  }
}
