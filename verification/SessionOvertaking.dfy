/** Commands overtaking each other on their way to the writer. A thread decides its commands under an
    entry's lock and hands them over after letting go, so two threads' commands may arrive in another
    order than they were decided in. Nothing is lost on the way; which rows still come out right is
    exactly a matter of what arrives before the row's own insertion. */
module SessionOvertaking {
  import opened Prelude
  import opened SessionModel
  import opened SessionStore
  import opened SessionEntryFacts
  import opened SessionInvariant
  import opened SessionRun
  import opened SessionSteps
  import opened SessionRestart

  // ---------------------------------------------------------------------------------------
  // Handing over
  // ---------------------------------------------------------------------------------------

  /** `plan` is what was decided, in the order of the locks; `owed` what each thread has yet to hand
      over; `sent` what the writer got, in the order it got it. */
  datatype Sending = Sending(plan: seq<Command>, owed: seq<seq<Command>>, sent: seq<Command>)

  datatype Move = Decide(t: nat, batch: seq<Command>) | HandOver(t: nat)

  predicate Can(s: Sending, m: Move) {
    m.t < |s.owed| && match m case Decide(t, _) => s.owed[t] == [] case HandOver(t) => s.owed[t] != []
  }

  function Go(s: Sending, m: Move): Sending
    requires Can(s, m)
  {
    match m
    case Decide(t, batch) => s.(plan := s.plan + batch, owed := s.owed[t := batch])
    case HandOver(t) => s.(owed := s.owed[t := s.owed[t][1..]], sent := s.sent + [s.owed[t][0]])
  }

  predicate CanAll(s: Sending, ms: seq<Move>)
    decreases |ms|
  {
    ms == [] || (Can(s, ms[0]) && CanAll(Go(s, ms[0]), ms[1..]))
  }

  function GoAll(s: Sending, ms: seq<Move>): Sending
    requires CanAll(s, ms)
    decreases |ms|
  {
    if ms == [] then s else GoAll(Go(s, ms[0]), ms[1..])
  }

  function Idle(threads: nat): Sending {
    Sending([], seq(threads, i => []), [])
  }

  /** Every thread has handed over everything. */
  predicate AllSent(s: Sending) {
    forall t :: 0 <= t < |s.owed| ==> s.owed[t] == []
  }

  /** How often a command is still owed. */
  function Outstanding(owed: seq<seq<Command>>, c: Command): nat {
    if owed == [] then 0 else Outstanding(owed[..|owed| - 1], c) + multiset(owed[|owed| - 1])[c]
  }

  /** One thread's debt replaced. */
  lemma {:induction false} DebtChanges(owed: seq<seq<Command>>, t: nat, debt: seq<Command>, c: Command)
    requires t < |owed|
    ensures Outstanding(owed[t := debt], c) + multiset(owed[t])[c] == Outstanding(owed, c) + multiset(debt)[c]
    decreases |owed|
  {
    var n := |owed| - 1;
    if t < n {
      DebtChanges(owed[..n], t, debt, c);
      assert owed[t := debt][..n] == owed[..n][t := debt];
    } else {
      assert owed[t := debt][..n] == owed[..n];
    }
  }

  lemma {:induction false} NothingOutstanding(owed: seq<seq<Command>>, c: Command)
    requires forall t :: 0 <= t < |owed| ==> owed[t] == []
    ensures Outstanding(owed, c) == 0
    decreases |owed|
  {
    if owed != [] {
      NothingOutstanding(owed[..|owed| - 1], c);
    }
  }

  /** What was decided is on its way or has arrived. */
  ghost predicate Conserves(s: Sending) {
    forall c {:trigger Outstanding(s.owed, c)} :: multiset(s.sent)[c] + Outstanding(s.owed, c) == multiset(s.plan)[c]
  }

  lemma GoConserves(s: Sending, m: Move)
    requires Conserves(s) && Can(s, m)
    ensures Conserves(Go(s, m))
  {
    forall c ensures multiset(Go(s, m).sent)[c] + Outstanding(Go(s, m).owed, c) == multiset(Go(s, m).plan)[c] {
      assert multiset(s.sent)[c] + Outstanding(s.owed, c) == multiset(s.plan)[c];
      if m.Decide? {
        DebtChanges(s.owed, m.t, m.batch, c);
        Counted(s.plan, m.batch, c);
      } else {
        var debt := s.owed[m.t];
        DebtChanges(s.owed, m.t, debt[1..], c);
        Counted(s.sent, [debt[0]], c);
        Counted([debt[0]], debt[1..], c);
        assert debt == [debt[0]] + debt[1..];
      }
    }
  }

  lemma Counted(a: seq<Command>, b: seq<Command>, c: Command)
    ensures multiset(a + b)[c] == multiset(a)[c] + multiset(b)[c]
  {
    assert multiset(a + b) == multiset(a) + multiset(b);
  }

  lemma {:induction false} AllConserve(s: Sending, ms: seq<Move>)
    requires Conserves(s) && CanAll(s, ms)
    ensures Conserves(GoAll(s, ms))
    decreases |ms|
  {
    if ms != [] {
      GoConserves(s, ms[0]);
      AllConserve(Go(s, ms[0]), ms[1..]);
    }
  }

  /** The same commands, in whatever order. */
  ghost predicate SameCommands(a: seq<Command>, b: seq<Command>) {
    forall c :: multiset(a)[c] == multiset(b)[c]
  }

  /** Whatever the interleaving, the writer gets each command that was decided, once. */
  lemma EverythingArrives(threads: nat, ms: seq<Move>)
    requires CanAll(Idle(threads), ms) && AllSent(GoAll(Idle(threads), ms))
    ensures SameCommands(GoAll(Idle(threads), ms).sent, GoAll(Idle(threads), ms).plan)
  {
    var s := GoAll(Idle(threads), ms);
    forall c
      ensures multiset(Idle(threads).sent)[c] + Outstanding(Idle(threads).owed, c) == multiset(Idle(threads).plan)[c] {
      NothingOutstanding(Idle(threads).owed, c);
    }
    AllConserve(Idle(threads), ms);
    forall c ensures multiset(s.sent)[c] == multiset(s.plan)[c] {
      NothingOutstanding(s.owed, c);
      assert multiset(s.sent)[c] + Outstanding(s.owed, c) == multiset(s.plan)[c];
    }
  }

  // ---------------------------------------------------------------------------------------
  // One row at a time
  // ---------------------------------------------------------------------------------------

  /** A row of either table. */
  datatype Row = OfGen(hash: TokenHash) | OfSession(sid: Sid)

  /** The command is about this row. */
  predicate About(c: Command, row: Row) {
    match row
    case OfGen(hash) => (c.InsertGeneration? || c.SupersedeGeneration? || c.DeleteGeneration?) && c.hash == hash
    case OfSession(sid) => (c.InsertSession? || c.UpdateSessionProgress? || c.TombstoneSession?) && c.sid == sid
  }

  /** The commands about one row, in order. */
  function On(log: seq<Command>, row: Row): seq<Command> {
    if log == [] then []
    else On(log[..|log| - 1], row) + if About(log[|log| - 1], row) then [log[|log| - 1]] else []
  }

  function RowAt(db: Db, hash: TokenHash): Option<GenRow> {
    if hash in db.gens then Some(db.gens[hash]) else None
  }

  lemma {:induction false} OnJoins(a: seq<Command>, b: seq<Command>, row: Row)
    ensures On(a + b, row) == On(a, row) + On(b, row)
    decreases |b|
  {
    if b == [] {
      assert a + b == a;
    } else {
      assert (a + b)[..|a + b| - 1] == a + b[..|b| - 1];
      OnJoins(a, b[..|b| - 1], row);
    }
  }

  lemma {:induction false} OnIsAbout(log: seq<Command>, row: Row, c: Command)
    ensures multiset(On(log, row))[c] == if About(c, row) then multiset(log)[c] else 0
  {
    if log == [] {
      assert multiset(log)[c] == 0;
    } else {
      var front, last := log[..|log| - 1], log[|log| - 1];
      var on := On(front, row);
      OnIsAbout(front, row, c);
      assert log == front + [last];
      CountedLast(front, last, c);
      if About(last, row) {
        CountedLast(on, last, c);
      } else {
        assert on + [] == on;
      }
    }
  }

  lemma CountedLast(a: seq<Command>, last: Command, c: Command)
    ensures multiset(a + [last])[c] == multiset(a)[c] + if c == last then 1 else 0
  {
    Counted(a, [last], c);
  }

  lemma SameOn(log: seq<Command>, plan: seq<Command>, row: Row)
    requires SameCommands(log, plan)
    ensures SameCommands(On(log, row), On(plan, row))
  {
    forall c ensures multiset(On(log, row))[c] == multiset(On(plan, row))[c] {
      OnIsAbout(log, row, c);
      OnIsAbout(plan, row, c);
    }
  }

  /** The row a command inserts. */
  function Inserted(c: Command): GenRow
    requires c.InsertGeneration?
  {
    GenRow(c.sid, Generation(c.genNo, c.hash, c.createdAt, c.activeUntil, None))
  }

  /** What a command does to its own row. */
  function Acted(row: Option<GenRow>, c: Command): Option<GenRow> {
    match c
    case InsertGeneration(_, _, _, _, _) => Some(Inserted(c))
    case SupersedeGeneration(_, at) =>
      if row.Some? then Some(row.value.(gen := row.value.gen.(supersededAt := Some(at)))) else None
    case DeleteGeneration(_) => None
    case _ => row
  }

  function Made(commands: seq<Command>): Option<GenRow> {
    if commands == [] then None else Acted(Made(commands[..|commands| - 1]), commands[|commands| - 1])
  }

  /** A command reads and writes no row but its own. */
  lemma RowExecutes(db: Db, c: Command, hash: TokenHash)
    ensures RowAt(Execute(db, c), hash) == if About(c, OfGen(hash)) then Acted(RowAt(db, hash), c) else RowAt(db, hash)
  {
  }

  /** A row is what the commands about it make of it. */
  lemma {:induction false} RowByItsOwn(log: seq<Command>, hash: TokenHash)
    ensures RowAt(Replay(log), hash) == Made(On(log, OfGen(hash)))
  {
    if log != [] {
      var front, last := log[..|log| - 1], log[|log| - 1];
      RowByItsOwn(front, hash);
      RowExecutes(Replay(front), last, hash);
      assert (On(front, OfGen(hash)) + [last])[..|On(front, OfGen(hash))|] == On(front, OfGen(hash));
      assert On(front, OfGen(hash)) + [] == On(front, OfGen(hash));
    }
  }

  // ---------------------------------------------------------------------------------------
  // What is decided about a row
  // ---------------------------------------------------------------------------------------

  /** A row's life as decided: inserted, superseded, deleted, as far as it has come. */
  datatype Life = Life(insert: Command, supersede: Option<Command>, delete: Option<Command>)

  function LifeOf(l: Life): seq<Command> {
    [l.insert] + (if l.supersede.Some? then [l.supersede.value] else [])
    + (if l.delete.Some? then [l.delete.value] else [])
  }

  predicate IsLife(l: Life, hash: TokenHash) {
    && l.insert.InsertGeneration? && l.insert.hash == hash
    && (l.supersede.Some? ==> l.supersede.value.SupersedeGeneration? && l.supersede.value.hash == hash)
    && (l.delete.Some? ==> l.supersede.Some? && l.delete.value == DeleteGeneration(hash))
  }

  /** Nothing that settles the row arrived before its insertion: not its deletion, or, while it has
      none, not its supersession. */
  predicate InTime(l: Life, row: seq<Command>) {
    && (l.delete.Some? ==> Before(row, l.insert, l.delete.value))
    && (l.delete.None? && l.supersede.Some? ==> Before(row, l.insert, l.supersede.value))
  }

  /** An `a` stands before a `b`. */
  predicate Before(row: seq<Command>, a: Command, b: Command) {
    row != [] && ((row[0] == a && b in row[1..]) || Before(row[1..], a, b))
  }

  /** The row as decided. */
  function Decided(l: Life, hash: TokenHash): Option<GenRow>
    requires IsLife(l, hash)
  {
    if l.delete.Some? then None
    else if l.supersede.Some? then
      Some(Inserted(l.insert).(gen := Inserted(l.insert).gen.(supersededAt := Some(l.supersede.value.at))))
    else Some(Inserted(l.insert))
  }

  lemma SameSize(a: seq<Command>, b: seq<Command>)
    requires SameCommands(a, b)
    ensures |a| == |b| && (forall c :: c in a <==> c in b)
    ensures forall i, j :: 0 <= i < j < |a| && a[i] == a[j] ==> multiset(b)[a[i]] >= 2
  {
    assert multiset(a) == multiset(b);
    assert |multiset(a)| == |multiset(b)|;
    forall c ensures c in a <==> c in b {
      assert c in a <==> multiset(a)[c] > 0;
      assert c in b <==> multiset(b)[c] > 0;
    }
    forall i, j | 0 <= i < j < |a| && a[i] == a[j] ensures multiset(b)[a[i]] >= 2 {
      assert a == a[..j] + a[j..] && a[i] in a[..j] && a[j] in a[j..];
      Counted(a[..j], a[j..], a[i]);
    }
  }

  lemma MadeOfTwo(x: Command, y: Command)
    ensures Made([x]) == Acted(None, x)
    ensures Made([x, y]) == Acted(Acted(None, x), y)
  {
    assert [x][..0] == [] && [x, y][..1] == [x];
  }

  lemma MadeOfThree(x: Command, y: Command, z: Command)
    ensures Made([x, y, z]) == Acted(Acted(Acted(None, x), y), z)
  {
    MadeOfTwo(x, y);
    assert [x, y, z][..2] == [x, y];
  }

  /** A row that was inserted and no more. */
  lemma InsertedOnly(l: Life, hash: TokenHash, row: seq<Command>)
    requires IsLife(l, hash) && l.supersede.None? && SameCommands(row, LifeOf(l))
    ensures Made(row) == Decided(l, hash) && InTime(l, row)
  {
    SameSize(row, LifeOf(l));
    assert l.insert in LifeOf(l);
    assert row == [l.insert];
    MadeOfTwo(l.insert, l.insert);
  }

  lemma BeforeInTwo(x: Command, y: Command, a: Command, b: Command)
    ensures Before([x, y], a, b) <==> x == a && y == b
  {
    assert [x, y][1..] == [y] && [y][1..] == [];
    assert !Before([y], a, b);
  }

  lemma BeforeInThree(x: Command, y: Command, z: Command, a: Command, b: Command)
    ensures Before([x, y, z], a, b) <==> (x == a && (y == b || z == b)) || (y == a && z == b)
  {
    assert [x, y, z][1..] == [y, z];
    assert b in [y, z] <==> b == y || b == z;
    BeforeInTwo(y, z, a, b);
  }

  /** A row that was inserted and superseded, one way round or the other. */
  lemma SupersededToo(l: Life, hash: TokenHash, x: Command, y: Command)
    requires IsLife(l, hash) && l.supersede.Some? && l.delete.None?
    requires (x == l.insert && y == l.supersede.value) || (y == l.insert && x == l.supersede.value)
    ensures Made([x, y]) == Decided(l, hash) <==> InTime(l, [x, y])
    ensures !InTime(l, [x, y]) ==> Made([x, y]) == Some(Inserted(l.insert))
  {
    MadeOfTwo(x, y);
    BeforeInTwo(x, y, l.insert, l.supersede.value);
  }

  /** A row that was deleted in the end, in any of six orders. */
  lemma DeletedToo(l: Life, hash: TokenHash, x: Command, y: Command, z: Command)
    requires IsLife(l, hash) && l.delete.Some?
    requires var (a, b, c) := (l.insert, l.supersede.value, l.delete.value);
             || (x == a && ((y == b && z == c) || (y == c && z == b)))
             || (x == b && ((y == a && z == c) || (y == c && z == a)))
             || (x == c && ((y == a && z == b) || (y == b && z == a)))
    ensures Made([x, y, z]) == Decided(l, hash) <==> InTime(l, [x, y, z])
  {
    MadeOfThree(x, y, z);
    BeforeInThree(x, y, z, l.insert, l.delete.value);
  }

  /** Exactly when a row comes out as decided. */
  lemma RowComesOutExactly(l: Life, hash: TokenHash, log: seq<Command>, plan: seq<Command>)
    requires IsLife(l, hash) && On(plan, OfGen(hash)) == LifeOf(l) && SameCommands(log, plan)
    ensures RowAt(Replay(plan), hash) == Decided(l, hash)
    ensures RowAt(Replay(log), hash) == RowAt(Replay(plan), hash) <==> InTime(l, On(log, OfGen(hash)))
  {
    SameOn(log, plan, OfGen(hash));
    RowByItsOwn(log, hash);
    RowByItsOwn(plan, hash);
    LifeComesOut(l, hash, LifeOf(l));
    LifeComesOut(l, hash, On(log, OfGen(hash)));
    DecidedInTime(l, hash);
  }

  lemma LifeComesOut(l: Life, hash: TokenHash, row: seq<Command>)
    requires IsLife(l, hash) && SameCommands(row, LifeOf(l))
    ensures Made(row) == Decided(l, hash) <==> InTime(l, row)
  {
    if l.supersede.None? {
      InsertedOnly(l, hash, row);
    } else if l.delete.None? {
      assert LifeOf(l) == [l.insert, l.supersede.value];
      TwoComeOut(l, hash, row);
    } else {
      assert LifeOf(l) == [l.insert, l.supersede.value, l.delete.value];
      ThreeComeOut(l, hash, row);
    }
  }

  lemma TwoComeOut(l: Life, hash: TokenHash, row: seq<Command>)
    requires IsLife(l, hash) && l.supersede.Some? && l.delete.None?
    requires SameCommands(row, [l.insert, l.supersede.value])
    ensures Made(row) == Decided(l, hash) <==> InTime(l, row)
  {
    TwoOrders(row, l.insert, l.supersede.value);
    var x, y := row[0], row[1];
    SupersededToo(l, hash, x, y);
  }

  lemma ThreeComeOut(l: Life, hash: TokenHash, row: seq<Command>)
    requires IsLife(l, hash) && l.delete.Some?
    requires SameCommands(row, [l.insert, l.supersede.value, l.delete.value])
    ensures Made(row) == Decided(l, hash) <==> InTime(l, row)
  {
    SixOrders(row, l.insert, l.supersede.value, l.delete.value);
    var x, y, z := row[0], row[1], row[2];
    DeletedToo(l, hash, x, y, z);
  }

  lemma TwoOrders(row: seq<Command>, a: Command, b: Command)
    requires SameCommands(row, [a, b]) && a != b
    ensures |row| == 2 && row == [row[0], row[1]]
    ensures (row[0] == a && row[1] == b) || (row[1] == a && row[0] == b)
  {
    SameSize(row, [a, b]);
    assert row[0] in row && row[1] in row;
    assert a in [a, b] && b in [a, b];
  }

  lemma SixOrders(row: seq<Command>, a: Command, b: Command, c: Command)
    requires SameCommands(row, [a, b, c]) && a != b && b != c && a != c
    ensures |row| == 3 && row == [row[0], row[1], row[2]]
    ensures var (x, y, z) := (row[0], row[1], row[2]);
            || (x == a && ((y == b && z == c) || (y == c && z == b)))
            || (x == b && ((y == a && z == c) || (y == c && z == a)))
            || (x == c && ((y == a && z == b) || (y == b && z == a)))
  {
    SameSize(row, [a, b, c]);
    assert row[0] in row && row[1] in row && row[2] in row;
    assert a in [a, b, c] && b in [a, b, c] && c in [a, b, c];
    assert a in row && b in row && c in row;
  }

  /** In the order decided, everything is in time. */
  lemma DecidedInTime(l: Life, hash: TokenHash)
    requires IsLife(l, hash)
    ensures InTime(l, LifeOf(l))
  {
    if l.delete.Some? {
      assert LifeOf(l) == [l.insert, l.supersede.value, l.delete.value];
      BeforeInThree(l.insert, l.supersede.value, l.delete.value, l.insert, l.delete.value);
    } else if l.supersede.Some? {
      assert LifeOf(l) == [l.insert, l.supersede.value];
      BeforeInTwo(l.insert, l.supersede.value, l.insert, l.supersede.value);
    }
  }

  // ---------------------------------------------------------------------------------------
  // What the map decides
  // ---------------------------------------------------------------------------------------

  /** The commands about a row are its life so far: superseded if the generation is, deleted if the
      row is gone. */
  ghost predicate LivedBy(ledger: map<TokenHash, GenRow>, db: Db, row: seq<Command>, hash: TokenHash, l: Life)
    requires hash in ledger
  {
    && IsLife(l, hash) && row == LifeOf(l)
    && (l.supersede.Some? <==> ledger[hash].gen.supersededAt.Some?) && (l.delete.Some? <==> hash !in db.gens)
  }

  ghost predicate Lived(ledger: map<TokenHash, GenRow>, db: Db, row: seq<Command>, hash: TokenHash) {
    if hash in ledger then exists l :: LivedBy(ledger, db, row, hash, l) else row == []
  }

  ghost predicate AllLived(y: System, db: Db) {
    forall h {:trigger Lived(y.ledger, db, On(y.log, OfGen(h)), h)} :: Lived(y.ledger, db, On(y.log, OfGen(h)), h)
  }

  predicate DistinctHashes(hashes: seq<TokenHash>) {
    forall i, j :: 0 <= i < j < |hashes| ==> hashes[i] != hashes[j]
  }

  lemma {:induction false} OnDeletes(purged: seq<TokenHash>, hash: TokenHash)
    requires DistinctHashes(purged)
    ensures On(Deletes(purged), OfGen(hash)) == if hash in purged then [DeleteGeneration(hash)] else []
    decreases |purged|
  {
    if purged != [] {
      var n := |purged| - 1;
      OnDeletes(purged[..n], hash);
      assert Deletes(purged)[..n] == Deletes(purged[..n]);
      assert purged == purged[..n] + [purged[n]];
    }
  }

  /** The commands of a batch of effects about one row. */
  function EffectsOn(sid: Sid, effects: Effects, hash: TokenHash): seq<Command> {
    (if effects.added.Some? && effects.added.value.hash == hash then [InsertCommand(sid, effects.added.value)] else [])
    + (if effects.superseded.Some? && effects.superseded.value.hash == hash
       then [SupersedeGeneration(hash, effects.superseded.value.at)] else [])
    + (if hash in effects.purged then [DeleteGeneration(hash)] else [])
  }

  lemma OnOne(c: Command, row: Row)
    ensures On([c], row) == if About(c, row) then [c] else []
  {
    assert [c][..0] == [];
  }

  lemma OnAtMostOne(commands: seq<Command>, row: Row)
    requires |commands| <= 1
    ensures On(commands, row) == if commands != [] && About(commands[0], row) then commands else []
  {
    if commands != [] {
      OnOne(commands[0], row);
      assert commands == [commands[0]];
    }
  }

  lemma OnAdded(sid: Sid, effects: Effects, hash: TokenHash)
    ensures var added := if effects.added.Some? then [InsertCommand(sid, effects.added.value)] else [];
            On(added, OfGen(hash)) == if effects.added.Some? && effects.added.value.hash == hash then added else []
  {
    OnAtMostOne(if effects.added.Some? then [InsertCommand(sid, effects.added.value)] else [], OfGen(hash));
  }

  lemma OnSuperseded(effects: Effects, hash: TokenHash)
    ensures var superseded := if effects.superseded.Some?
                              then [SupersedeGeneration(effects.superseded.value.hash, effects.superseded.value.at)]
                              else [];
            On(superseded, OfGen(hash))
            == if effects.superseded.Some? && effects.superseded.value.hash == hash then superseded else []
  {
    OnAtMostOne(if effects.superseded.Some?
                then [SupersedeGeneration(effects.superseded.value.hash, effects.superseded.value.at)] else [],
                OfGen(hash));
  }

  lemma OnEffects(sid: Sid, effects: Effects, hash: TokenHash)
    requires DistinctHashes(effects.purged)
    ensures On(EffectCommands(sid, effects), OfGen(hash)) == EffectsOn(sid, effects, hash)
  {
    var added := if effects.added.Some? then [InsertCommand(sid, effects.added.value)] else [];
    var superseded := if effects.superseded.Some?
                      then [SupersedeGeneration(effects.superseded.value.hash, effects.superseded.value.at)] else [];
    OnAdded(sid, effects, hash);
    OnSuperseded(effects, hash);
    OnDeletes(effects.purged, hash);
    OnThree(added, superseded, Deletes(effects.purged), OfGen(hash));
  }

  lemma OnThree(a: seq<Command>, b: seq<Command>, c: seq<Command>, row: Row)
    ensures On(a + b + c, row) == On(a, row) + On(b, row) + On(c, row)
  {
    OnJoins(a + b, c, row);
    OnJoins(a, b, row);
  }

  /** Effects that carry lives on: a new generation is new, only a living one is superseded, and a row
      is deleted once, after its supersession. */
  ghost predicate CarriesOn(ledger: map<TokenHash, GenRow>, db: Db, effects: Effects) {
    && DistinctHashes(effects.purged)
    && (effects.added.Some? ==> effects.added.value.hash !in ledger && effects.added.value.supersededAt.None?)
    && (effects.superseded.Some? ==>
          var h := effects.superseded.value.hash;
          h in ledger && ledger[h].gen.supersededAt.None? && h in db.gens)
    && forall h :: h in effects.purged ==>
         h in ledger && h in db.gens
         && (ledger[h].gen.supersededAt.Some? || (effects.superseded.Some? && effects.superseded.value.hash == h))
  }

  /** A life after a batch of effects. */
  function Onward(l: Life, effects: Effects, hash: TokenHash): Life {
    var superseded := if effects.superseded.Some? && effects.superseded.value.hash == hash
                      then Some(SupersedeGeneration(hash, effects.superseded.value.at)) else l.supersede;
    l.(supersede := superseded, delete := if hash in effects.purged then Some(DeleteGeneration(hash)) else l.delete)
  }

  lemma OldLifeGoesOn(ledger: map<TokenHash, GenRow>, db: Db, sid: Sid, effects: Effects, row: seq<Command>,
                      hash: TokenHash, l: Life)
    requires CarriesOn(ledger, db, effects) && hash in ledger && LivedBy(ledger, db, row, hash, l)
    ensures row + EffectsOn(sid, effects, hash) == LifeOf(Onward(l, effects, hash))
            && IsLife(Onward(l, effects, hash), hash)
  {
  }

  lemma LifeGoesOn(ledger: map<TokenHash, GenRow>, db: Db, sid: Sid, effects: Effects, row: seq<Command>,
                   hash: TokenHash, ledger': map<TokenHash, GenRow>, db': Db)
    requires CarriesOn(ledger, db, effects) && RowsOnLedger(db, ledger) && Lived(ledger, db, row, hash)
    requires ledger' == Entered(ledger, sid, effects)
    requires db'.gens == Entered(db.gens, sid, effects) - (set h | h in effects.purged)
    ensures Lived(ledger', db', row + EffectsOn(sid, effects, hash), hash)
  {
    if hash in ledger {
      var l :| LivedBy(ledger, db, row, hash, l);
      OldLifeGoesOn(ledger, db, sid, effects, row, hash, l);
      assert LivedBy(ledger', db', row + EffectsOn(sid, effects, hash), hash, Onward(l, effects, hash));
    } else if effects.added.Some? && effects.added.value.hash == hash {
      var l := Life(InsertCommand(sid, effects.added.value), None, None);
      assert row + EffectsOn(sid, effects, hash) == LifeOf(l);
      assert LivedBy(ledger', db', row + EffectsOn(sid, effects, hash), hash, l);
    }
  }

  // ---------------------------------------------------------------------------------------
  // Runs
  // ---------------------------------------------------------------------------------------

  /** No hash is purged twice in one reaping. */
  lemma ReapPurgesOnce(p: SessionPolicy, e: Entry, now: Timestamp)
    requires EntryOk(p, e)
    ensures DistinctHashes(Reap(e, now, p).purged)
  {
    var leaving := Leaving(e, now, p);
    PartsDistinct(e, now, p);
    StaysOrLeaves(e, now, p);
    ReapRetires(e, now, p);
    AllDistinct(e.retired, leaving);
    PurgesOnce(e.retired, leaving, p.retiredMemory);
  }

  lemma PurgesOnce(retired: seq<Mark>, gens: seq<Generation>, memory: nat)
    requires DistinctMarks(retired + Marks(gens))
    ensures DistinctHashes(RetireAll(retired, gens, memory).1)
  {
    var all := retired + Marks(gens);
    var gone := all[..Overflow(all, memory)];
    assert gens != [] ==> RetireAll(retired, gens, memory).1 == Hashes(gone);
    forall i, j | 0 <= i < j < |gone| ensures Hashes(gone)[i] != Hashes(gone)[j] {
      assert gone[i] == all[i] && gone[j] == all[j];
      assert all[i].hash != all[j].hash;
    }
  }

  /** Commands about sessions, not generations. */
  ghost predicate AboutNone(commands: seq<Command>) {
    forall h {:trigger On(commands, OfGen(h))} :: On(commands, OfGen(h)) == []
  }

  lemma OneAboutNone(c: Command)
    requires c.InsertSession? || c.UpdateSessionProgress? || c.TombstoneSession?
    ensures AboutNone([c])
  {
    forall h ensures On([c], OfGen(h)) == [] {
      OnOne(c, OfGen(h));
    }
  }

  /** A batch of effects decided, between commands about sessions. */
  lemma EffectsLive(y: System, y': System, sid: Sid, effects: Effects, head: seq<Command>, tail: seq<Command>)
    requires AllLived(y, Replay(y.log)) && RowsOnLedger(Replay(y.log), y.ledger)
    requires CarriesOn(y.ledger, Replay(y.log), effects) && AboutNone(head) && AboutNone(tail)
    requires y'.log == y.log + (head + EffectCommands(sid, effects) + tail)
    requires y'.ledger == Entered(y.ledger, sid, effects)
    requires Replay(y'.log).gens == Entered(Replay(y.log).gens, sid, effects) - (set h | h in effects.purged)
    ensures AllLived(y', Replay(y'.log))
  {
    forall h ensures Lived(y'.ledger, Replay(y'.log), On(y'.log, OfGen(h)), h) {
      assert Lived(y.ledger, Replay(y.log), On(y.log, OfGen(h)), h);
      OnJoins(y.log, head + EffectCommands(sid, effects) + tail, OfGen(h));
      OnJoins(head + EffectCommands(sid, effects), tail, OfGen(h));
      OnJoins(head, EffectCommands(sid, effects), OfGen(h));
      OnEffects(sid, effects, h);
      assert On(head, OfGen(h)) == [] && On(tail, OfGen(h)) == [];
      assert [] + EffectsOn(sid, effects, h) + [] == EffectsOn(sid, effects, h);
      LifeGoesOn(y.ledger, Replay(y.log), sid, effects, On(y.log, OfGen(h)), h, y'.ledger, Replay(y'.log));
    }
  }

  /** Nothing decided about any generation. */
  lemma NothingLives(y: System, y': System, more: seq<Command>)
    requires AllLived(y, Replay(y.log)) && y'.ledger == y.ledger && Replay(y'.log).gens == Replay(y.log).gens
    requires y'.log == y.log + more && AboutNone(more)
    ensures AllLived(y', Replay(y'.log))
  {
    forall h ensures Lived(y'.ledger, Replay(y'.log), On(y'.log, OfGen(h)), h) {
      assert Lived(y.ledger, Replay(y.log), On(y.log, OfGen(h)), h);
      OnJoins(y.log, more, OfGen(h));
      assert On(more, OfGen(h)) == [] && On(y.log, OfGen(h)) + [] == On(y.log, OfGen(h));
      StillLived(y.ledger, Replay(y.log), Replay(y'.log), On(y.log, OfGen(h)), h);
    }
  }

  lemma StillLived(ledger: map<TokenHash, GenRow>, db: Db, db': Db, row: seq<Command>, hash: TokenHash)
    requires Lived(ledger, db, row, hash) && db'.gens == db.gens
    ensures Lived(ledger, db', row, hash)
  {
    if hash in ledger {
      var l :| LivedBy(ledger, db, row, hash, l);
      assert LivedBy(ledger, db', row, hash, l);
    }
  }

  lemma ReapCarriesOn(p: SessionPolicy, ledger: map<TokenHash, GenRow>, db: Db, sid: Sid, e: Entry, now: Timestamp)
    requires EntryOk(p, e) && OnLedger(ledger, sid, e) && KeysMatch(db.gens, ledger, sid, AllHashes(e))
    ensures CarriesOn(ledger, db, Effects(None, None, Reap(e, now, p).purged))
  {
    ReapPurgesOnce(p, e, now);
    PurgedAreOld(p, ledger, sid, e, now);
    ReapPurges(p, e, now);
    OnLedgerHashes(ledger, sid, e);
  }

  lemma MintCarriesOn(p: SessionPolicy, ledger: map<TokenHash, GenRow>, db: Db, sid: Sid, e: Entry, now: Timestamp,
                      newHash: TokenHash)
    requires EntryOk(p, e) && OnLedger(ledger, sid, e) && newHash !in ledger
             && KeysMatch(db.gens, ledger, sid, AllHashes(e))
    ensures CarriesOn(ledger, db, Mint(e, now, p, newHash).effects)
  {
    var grown := Grown(e, now, p, newHash);
    var grew := Entered(ledger, sid, GrowEffects(e, now, p, newHash));
    OnLedgerHashes(ledger, sid, e);
    assert newHash !in AllHashes(e);
    GrownOk(p, e, now, newHash);
    GrownOnLedger(p, ledger, sid, e, now, newHash);
    ReapPurgesOnce(p, grown, now);
    PurgedAreOld(p, grew, sid, grown, now);
    MintFacts(p, e, now, newHash);
    TopOnLedger(ledger, sid, e);
    EnteredPointwise(ledger, sid, e, now, p, newHash);
    TopIsNew(p, e);
  }

  lemma TopIsNew(p: SessionPolicy, e: Entry)
    requires EntryOk(p, e)
    ensures e.gens[|e.gens| - 1].supersededAt.None?
  {
  }

  lemma RefreshLives(p: SessionPolicy, y: System, hash: TokenHash, now: Timestamp, newHash: TokenHash)
    requires Inv(p, y) && AllLived(y, Replay(y.log)) && newHash !in y.ledger && Finds(y, hash)
    requires EntryRefresh(y.store.sessions[y.store.index[hash]], hash, now, p, newHash).result.Issued?
    requires !Coalesces(y.store.sessions[y.store.index[hash]], now, p) && y.clock <= now
    ensures AllLived(AfterRefresh(p, y, hash, now, newHash), Replay(AfterRefresh(p, y, hash, now, newHash).log))
  {
    var sid := y.store.index[hash];
    var e, y' := y.store.sessions[sid], AfterRefresh(p, y, hash, now, newHash);
    var effects, idleExp := Mint(e, now, p, newHash).effects, Min(now + p.idleTtl, e.absoluteExp);
    var progress := UpdateSessionProgress(sid, e.currentGen + 1, idleExp);
    HasRow(p, y, Replay(y.log), sid);
    MintCarriesOn(p, y.ledger, Replay(y.log), sid, e, now, newHash);
    RefreshMintsTo(p, y, hash, now, newHash);
    RefreshMintsEmits(p, y, hash, now, newHash);
    RefreshMintsLog(p, y, hash, now, newHash);
    OneAboutNone(progress);
    assert AboutNone([]);
    assert [] + EffectCommands(sid, effects) == EffectCommands(sid, effects);
    EffectsLive(y, y', sid, effects, [], [progress]);
  }

  lemma CreateLives(p: SessionPolicy, y: System, op: Op)
    requires Inv(p, y) && AllLived(y, Replay(y.log)) && op.Create? && Valid(y, op)
    ensures AllLived(Step(p, y, op), Replay(Step(p, y, op).log))
  {
    var e := NewEntry(op.sid, op.custody, op.sub, op.now, p, op.newHash);
    var y', effects := Step(p, y, op), Effects(Some(e.gens[0]), None, []);
    var head := InsertSession(op.sid, NewRow(e, op.now));
    CreatedDb(p, y, op.sid, op.custody, op.sub, op.now, op.newHash);
    OneAboutNone(head);
    assert AboutNone([]);
    assert EffectCommands(op.sid, effects) == [InsertCommand(op.sid, e.gens[0])];
    assert [head] + EffectCommands(op.sid, effects) + [] == [head, InsertCommand(op.sid, e.gens[0])];
    assert Entered(Replay(y.log).gens, op.sid, effects) - (set h | h in effects.purged)
        == Replay(y.log).gens[op.newHash := GenRow(op.sid, e.gens[0])];
    EffectsLive(y, y', op.sid, effects, [head], []);
  }

  lemma ReapLives(p: SessionPolicy, y: System, sid: Sid, now: Timestamp)
    requires Inv(p, y) && AllLived(y, Replay(y.log)) && y.clock <= now
    ensures AllLived(AfterReap(p, y, sid, now), Replay(AfterReap(p, y, sid, now).log))
  {
    var y' := AfterReap(p, y, sid, now);
    assert AboutNone([]);
    if sid in y.store.sessions && !Collectible(y.store.sessions[sid], now, p) {
      var e := y.store.sessions[sid];
      var effects := Effects(None, None, Reap(e, now, p).purged);
      HasRow(p, y, Replay(y.log), sid);
      ReapCarriesOn(p, y.ledger, Replay(y.log), sid, e, now);
      ReplayAppends(y.log, EffectCommands(sid, effects));
      EffectsOnTables(Replay(y.log), sid, effects);
      assert [] + EffectCommands(sid, effects) + [] == EffectCommands(sid, effects);
      EffectsLive(y, y', sid, effects, [], []);
    } else {
      assert y.log + [] == y.log;
      NothingLives(y, y', []);
    }
  }

  lemma RefreshStepLives(p: SessionPolicy, y: System, hash: TokenHash, now: Timestamp, newHash: TokenHash)
    requires Inv(p, y) && AllLived(y, Replay(y.log)) && newHash !in y.ledger && y.clock <= now
    ensures AllLived(AfterRefresh(p, y, hash, now, newHash), Replay(AfterRefresh(p, y, hash, now, newHash).log))
  {
    var y' := AfterRefresh(p, y, hash, now, newHash);
    assert AboutNone([]) && y.log + [] == y.log;
    if !Finds(y, hash) || EntryRefresh(y.store.sessions[y.store.index[hash]], hash, now, p, newHash).result.Refused? {
      NothingLives(y, y', []);
    } else if !Coalesces(y.store.sessions[y.store.index[hash]], now, p) {
      RefreshLives(p, y, hash, now, newHash);
    } else {
      var sid := y.store.index[hash];
      var e := y.store.sessions[sid];
      var progress := UpdateSessionProgress(sid, e.currentGen, Slide(e, now, p).idleExp);
      HasRow(p, y, Replay(y.log), sid);
      RefreshSlides(p, y, hash, now, newHash);
      RefreshCoalescesLog(p, y, Replay(y.log), hash, now, newHash);
      RefreshCoalescesEmits(p, y, hash, now, newHash);
      OneAboutNone(progress);
      NothingLives(y, y', [progress]);
    }
  }

  lemma RefreshCoalescesEmits(p: SessionPolicy, y: System, hash: TokenHash, now: Timestamp, newHash: TokenHash)
    requires Finds(y, hash)
    requires var e := y.store.sessions[y.store.index[hash]];
             EntryRefresh(e, hash, now, p, newHash).result.Issued? && Coalesces(e, now, p)
    ensures var sid := y.store.index[hash];
            AfterRefresh(p, y, hash, now, newHash).log
            == y.log + [UpdateSessionProgress(sid, y.store.sessions[sid].currentGen,
                                              Slide(y.store.sessions[sid], now, p).idleExp)]
  {
    assert EffectCommands(y.store.index[hash], NO_EFFECTS) == [];
  }

  /** One command about a session, and no generation decided. */
  lemma OneLives(y: System, y': System, c: Command)
    requires AllLived(y, Replay(y.log)) && y'.ledger == y.ledger && y'.log == y.log + [c]
    requires c.InsertSession? || c.UpdateSessionProgress? || c.TombstoneSession?
    ensures AllLived(y', Replay(y'.log))
  {
    ReplayOne(y.log, c);
    OneAboutNone(c);
    NothingLives(y, y', [c]);
  }

  /** Nothing written at all. */
  lemma SilentLives(y: System, y': System)
    requires AllLived(y, Replay(y.log)) && y'.ledger == y.ledger && y'.log == y.log
    ensures AllLived(y', Replay(y'.log))
  {
    assert y.log + [] == y.log;
    NothingLives(y, y', []);
  }

  lemma TombstoneLives(y: System, sid: Sid, now: Timestamp)
    requires AllLived(y, Replay(y.log))
    ensures AllLived(AfterTombstone(y, sid, now), Replay(AfterTombstone(y, sid, now).log))
  {
    if AfterTombstone(y, sid, now).log == y.log {
      SilentLives(y, AfterTombstone(y, sid, now));
    } else {
      OneLives(y, AfterTombstone(y, sid, now), TombstoneSession(sid, now));
    }
  }

  lemma StepLives(p: SessionPolicy, y: System, op: Op)
    requires Inv(p, y) && AllLived(y, Replay(y.log)) && Valid(y, op)
    ensures AllLived(Step(p, y, op), Replay(Step(p, y, op).log))
  {
    match op
    case Create(_, _, _, _, _) => CreateLives(p, y, op);
    case Refresh(hash, now, newHash) => RefreshStepLives(p, y, hash, now, newHash);
    case ReapOne(sid, now) => ReapLives(p, y, sid, now);
    case Tombstone(sid, now) => TombstoneLives(y, sid, now);
    case _ => SilentLives(y, Step(p, y, op));
  }

  lemma {:induction false} RunLives(p: SessionPolicy, y: System, ops: seq<Op>)
    requires Inv(p, y) && AllLived(y, Replay(y.log)) && ValidRun(p, y, ops)
    ensures AllLived(Run(p, y, ops), Replay(Run(p, y, ops).log))
    decreases |ops|
  {
    if ops != [] {
      StepKeeps(p, y, ops[0]);
      StepLives(p, y, ops[0]);
      RunLives(p, Step(p, y, ops[0]), ops[1..]);
    }
  }

  /** What was decided about a row arrived in time. */
  ghost predicate RowInTime(plan: seq<Command>, sent: seq<Command>, hash: TokenHash) {
    forall l {:trigger IsLife(l, hash)} :: IsLife(l, hash) && On(plan, OfGen(hash)) == LifeOf(l) ==>
      InTime(l, On(sent, OfGen(hash)))
  }

  /** Threads have decided, in the order of the locks, what some run of the map decides, and handed it
      all over in some interleaving. */
  ghost predicate Delivered(p: SessionPolicy, y: System, s: Sending) {
    Reachable(p, y) && s.plan == y.log && exists threads, ms :: Handed(threads, ms, s)
  }

  predicate Handed(threads: nat, ms: seq<Move>, s: Sending) {
    CanAll(Idle(threads), ms) && s == GoAll(Idle(threads), ms) && AllSent(s)
  }

  lemma DeliveredIsComplete(p: SessionPolicy, y: System, s: Sending)
    requires Delivered(p, y, s)
    ensures AllLived(y, Replay(y.log)) && SameCommands(s.sent, y.log)
  {
    var start, ops :| ValidRun(p, Initial(start), ops) && y == Run(p, Initial(start), ops);
    InitialInv(p, start);
    RunLives(p, Initial(start), ops);
    var threads, ms :| Handed(threads, ms, s);
    EverythingArrives(threads, ms);
  }

  /** A row the writer ends up with is the one memory stands for if and only if its insertion came
      before its deletion, or, while it has none, before its supersession. */
  lemma RowMatchesExactly(p: SessionPolicy, y: System, s: Sending, hash: TokenHash)
    requires Delivered(p, y, s)
    ensures RowAt(Replay(s.sent), hash) == RowAt(Replay(y.log), hash) <==> RowInTime(y.log, s.sent, hash)
  {
    DeliveredIsComplete(p, y, s);
    forall l | IsLife(l, hash) && On(y.log, OfGen(hash)) == LifeOf(l)
      ensures RowAt(Replay(s.sent), hash) == RowAt(Replay(y.log), hash) <==> InTime(l, On(s.sent, OfGen(hash)))
    {
      RowComesOutExactly(l, hash, s.sent, y.log);
    }
    assert Lived(y.ledger, Replay(y.log), On(y.log, OfGen(hash)), hash);
    if hash in y.ledger {
      var l :| LivedBy(y.ledger, Replay(y.log), On(y.log, OfGen(hash)), hash, l);
    } else {
      NothingAboutIt(s.sent, y.log, hash);
    }
  }

  lemma NothingAboutIt(log: seq<Command>, plan: seq<Command>, hash: TokenHash)
    requires SameCommands(log, plan) && On(plan, OfGen(hash)) == []
    ensures RowAt(Replay(log), hash) == RowAt(Replay(plan), hash)
  {
    SameOn(log, plan, OfGen(hash));
    SameSize(On(log, OfGen(hash)), []);
    RowByItsOwn(log, hash);
    RowByItsOwn(plan, hash);
  }

  /** Exactly when the generation table is, after all the overtaking, the one the run decided: every
      row's insertion was in time. */
  lemma ReplayMatchesExactly(p: SessionPolicy, y: System, s: Sending)
    requires Delivered(p, y, s)
    ensures Replay(s.sent).gens == Replay(y.log).gens
            <==> forall h {:trigger RowInTime(y.log, s.sent, h)} :: RowInTime(y.log, s.sent, h)
  {
    forall h ensures RowAt(Replay(s.sent), h) == RowAt(Replay(y.log), h) <==> RowInTime(y.log, s.sent, h) {
      RowMatchesExactly(p, y, s, h);
    }
    if forall h {:trigger RowInTime(y.log, s.sent, h)} :: RowInTime(y.log, s.sent, h) {
      forall h ensures RowAt(Replay(s.sent), h) == RowAt(Replay(y.log), h) {
        assert RowInTime(y.log, s.sent, h);
      }
      SameRows(Replay(s.sent), Replay(y.log));
    }
  }

  lemma SameRows(db: Db, db': Db)
    requires forall h {:trigger RowAt(db, h)} :: RowAt(db, h) == RowAt(db', h)
    ensures db.gens == db'.gens
  {
    forall h ensures h in db.gens <==> h in db'.gens {
      assert RowAt(db, h) == RowAt(db', h);
    }
    forall h | h in db.gens ensures db.gens[h] == db'.gens[h] {
      assert RowAt(db, h) == RowAt(db', h);
    }
  }

  // ---------------------------------------------------------------------------------------
  // One mint overtaking another
  // ---------------------------------------------------------------------------------------

  predicate Mints(p: SessionPolicy, y: System, hash: TokenHash, now: Timestamp, newHash: TokenHash) {
    && y.clock <= now && newHash !in y.ledger && Finds(y, hash)
    && var e := y.store.sessions[y.store.index[hash]];
       EntryRefresh(e, hash, now, p, newHash).result.Issued? && !Coalesces(e, now, p)
  }

  /** What a mint decides. */
  function MintBatch(p: SessionPolicy, y: System, hash: TokenHash, now: Timestamp, newHash: TokenHash): seq<Command>
    requires Finds(y, hash)
  {
    var sid := y.store.index[hash];
    var e := y.store.sessions[sid];
    EffectCommands(sid, Mint(e, now, p, newHash).effects)
    + [UpdateSessionProgress(sid, e.currentGen + 1, Min(now + p.idleTtl, e.absoluteExp))]
  }

  lemma ProgressOn(sid: Sid, effects: Effects, progress: Command, h: TokenHash)
    requires DistinctHashes(effects.purged) && progress.UpdateSessionProgress?
    ensures On(EffectCommands(sid, effects) + [progress], OfGen(h)) == EffectsOn(sid, effects, h)
  {
    OnJoins(EffectCommands(sid, effects), [progress], OfGen(h));
    OnEffects(sid, effects, h);
    OnOne(progress, OfGen(h));
    assert EffectsOn(sid, effects, h) + [] == EffectsOn(sid, effects, h);
  }

  /** The entry a refresh finds is in order, and its mint carries lives on. */
  lemma FoundCarriesOn(p: SessionPolicy, y: System, sid: Sid, now: Timestamp, newHash: TokenHash)
    requires Inv(p, y) && sid in y.store.sessions && newHash !in y.ledger
    ensures var e := y.store.sessions[sid];
            && e.gens != [] && e.gens[|e.gens| - 1].hash in y.ledger
            && CarriesOn(y.ledger, Replay(y.log), Mint(e, now, p, newHash).effects)
  {
    HasRow(p, y, Replay(y.log), sid);
    MintCarriesOn(p, y.ledger, Replay(y.log), sid, y.store.sessions[sid], now, newHash);
    TopOnLedger(y.ledger, sid, y.store.sessions[sid]);
  }

  lemma EffectsInsertAndSupersede(ledger: map<TokenHash, GenRow>, db: Db, sid: Sid, effects: Effects, progress: Command)
    requires CarriesOn(ledger, db, effects) && progress.UpdateSessionProgress?
    requires effects.added.Some? && effects.superseded.Some?
    ensures var batch, newHash := EffectCommands(sid, effects) + [progress], effects.added.value.hash;
            var (top, at) := (effects.superseded.value.hash, effects.superseded.value.at);
            InsertsRow(On(batch, OfGen(newHash)), newHash) && SupersedesRow(On(batch, OfGen(top)), top, at)
  {
    ProgressOn(sid, effects, progress, effects.added.value.hash);
    ProgressOn(sid, effects, progress, effects.superseded.value.hash);
  }

  lemma MintsNewOverTop(e: Entry, now: Timestamp, p: SessionPolicy, newHash: TokenHash)
    requires e.gens != []
    ensures var effects := Mint(e, now, p, newHash).effects;
            && effects.added.Some? && effects.added.value.hash == newHash
            && effects.superseded == Some(Supersession(e.gens[|e.gens| - 1].hash, now))
  {
  }

  /** A mint inserts a row for the new token, supersedes the newest row so far, and may drop that. */
  lemma BatchInsertsAndSupersedes(p: SessionPolicy, y: System, hash: TokenHash, now: Timestamp, newHash: TokenHash)
    requires Inv(p, y) && Finds(y, hash) && newHash !in y.ledger
    ensures var gens := y.store.sessions[y.store.index[hash]].gens;
            var batch, top := MintBatch(p, y, hash, now, newHash), gens[|gens| - 1].hash;
            InsertsRow(On(batch, OfGen(newHash)), newHash) && SupersedesRow(On(batch, OfGen(top)), top, now)
  {
    var sid := y.store.index[hash];
    var e := y.store.sessions[sid];
    var progress := UpdateSessionProgress(sid, e.currentGen + 1, Min(now + p.idleTtl, e.absoluteExp));
    FoundCarriesOn(p, y, sid, now, newHash);
    MintsNewOverTop(e, now, p, newHash);
    EffectsInsertAndSupersede(y.ledger, Replay(y.log), sid, Mint(e, now, p, newHash).effects, progress);
  }

  predicate InsertsRow(row: seq<Command>, hash: TokenHash) {
    |row| == 1 && row[0].InsertGeneration? && row[0].hash == hash
  }

  /** The row is superseded, and possibly dropped. */
  predicate SupersedesRow(row: seq<Command>, hash: TokenHash, at: Timestamp) {
    row == [SupersedeGeneration(hash, at)] + if |row| == 2 then [DeleteGeneration(hash)] else []
  }

  lemma MintsThen(p: SessionPolicy, y: System, hash: TokenHash, now: Timestamp, newHash: TokenHash)
    requires Mints(p, y, hash, now, newHash)
    ensures var y' := AfterRefresh(p, y, hash, now, newHash);
            && y'.log == y.log + MintBatch(p, y, hash, now, newHash)
            && NewestIs(y', y.store.index[hash], newHash)
  {
    RefreshMintsTo(p, y, hash, now, newHash);
    RefreshMintsEmits(p, y, hash, now, newHash);
    NewestIsMinted(p, y, AfterRefresh(p, y, hash, now, newHash), y.store.index[hash],
                   y.store.sessions[y.store.index[hash]], now, newHash,
                   Min(now + p.idleTtl, y.store.sessions[y.store.index[hash]].absoluteExp));
  }

  predicate NewestIs(y: System, sid: Sid, hash: TokenHash) {
    sid in y.store.sessions && var gens := y.store.sessions[sid].gens; gens != [] && gens[|gens| - 1].hash == hash
  }

  lemma NewestIsMinted(p: SessionPolicy, y: System, y': System, sid: Sid, e: Entry, now: Timestamp, newHash: TokenHash,
                       idleExp: Timestamp)
    requires sid in y.store.sessions && MintedTo(p, y, y', sid, e, now, newHash, idleExp)
    ensures NewestIs(y', sid, newHash)
  {
    MintKeepsCurrent(e, now, p, newHash);
  }

  lemma ReachesOn(p: SessionPolicy, y: System, op: Op)
    requires Reachable(p, y) && Valid(y, op)
    ensures Reachable(p, Step(p, y, op))
  {
    var start, ops :| ValidRun(p, Initial(start), ops) && y == Run(p, Initial(start), ops);
    RunsOn(p, Initial(start), ops, op);
  }

  lemma {:induction false} RunsOn(p: SessionPolicy, y: System, ops: seq<Op>, op: Op)
    requires ValidRun(p, y, ops) && Valid(Run(p, y, ops), op)
    ensures ValidRun(p, y, ops + [op]) && Run(p, y, ops + [op]) == Step(p, Run(p, y, ops), op)
    decreases |ops|
  {
    if ops == [] {
      assert [op][1..] == [] && ops + [op] == [op];
    } else {
      assert (ops + [op])[0] == ops[0] && (ops + [op])[1..] == ops[1..] + [op];
      RunsOn(p, Step(p, y, ops[0]), ops[1..], op);
    }
  }

  /** Two mints of one session, one straight after the other. */
  ghost predicate TwoMints(p: SessionPolicy, y: System, hash: TokenHash, now: Timestamp, newHash: TokenHash,
                           hash': TokenHash, now': Timestamp, newHash': TokenHash) {
    && Reachable(p, y) && Mints(p, y, hash, now, newHash)
    && var y1 := AfterRefresh(p, y, hash, now, newHash);
       Mints(p, y1, hash', now', newHash') && y1.store.index[hash'] == y.store.index[hash]
  }

  /** What goes wrong: of any two consecutive mints of a session, in whatever run, the second may hand
      over before the first. The supersession of a row that is not there yet is lost, and the row stands
      as if its generation were still the newest. */
  lemma OvertakenMint(p: SessionPolicy, y: System, hash: TokenHash, now: Timestamp, newHash: TokenHash,
                      hash': TokenHash, now': Timestamp, newHash': TokenHash) returns (s: Sending)
    requires TwoMints(p, y, hash, now, newHash, hash', now', newHash')
    ensures var y2 := AfterRefresh(p, AfterRefresh(p, y, hash, now, newHash), hash', now', newHash');
            && Delivered(p, y2, s) && newHash in Replay(s.sent).gens
            && Replay(s.sent).gens[newHash].gen.supersededAt.None?
            && !RowInTime(y2.log, s.sent, newHash)
  {
    var y1 := AfterRefresh(p, y, hash, now, newHash);
    var y2 := AfterRefresh(p, y1, hash', now', newHash');
    var first, second := MintBatch(p, y, hash, now, newHash), MintBatch(p, y1, hash', now', newHash');
    TwoMintsDecide(p, y, hash, now, newHash, hash', now', newHash');
    var ms := MintsOvertake(y.log, first, second);
    s := GoAll(Idle(2), ms);
    assert Handed(2, ms, s);
    Overtaken(y.log, first, second, newHash, now');
    RowMatchesExactly(p, y2, s, newHash);
  }

  lemma TwoMintsDecide(p: SessionPolicy, y: System, hash: TokenHash, now: Timestamp, newHash: TokenHash,
                       hash': TokenHash, now': Timestamp, newHash': TokenHash)
    requires TwoMints(p, y, hash, now, newHash, hash', now', newHash')
    ensures var y1 := AfterRefresh(p, y, hash, now, newHash);
            var y2 := AfterRefresh(p, y1, hash', now', newHash');
            var first, second := MintBatch(p, y, hash, now, newHash), MintBatch(p, y1, hash', now', newHash');
            && Reachable(p, y2) && y2.log == y.log + first + second
            && On(y.log, OfGen(newHash)) == [] && InsertsRow(On(first, OfGen(newHash)), newHash)
            && SupersedesRow(On(second, OfGen(newHash)), newHash, now')
  {
    var y1 := AfterRefresh(p, y, hash, now, newHash);
    ReachesOn(p, y, Refresh(hash, now, newHash));
    ReachesOn(p, y1, Refresh(hash', now', newHash'));
    ReachableInv(p, y);
    ReachableInv(p, y1);
    MintsThen(p, y, hash, now, newHash);
    MintsThen(p, y1, hash', now', newHash');
    BatchInsertsAndSupersedes(p, y, hash, now, newHash);
    BatchInsertsAndSupersedes(p, y1, hash', now', newHash');
    NotYetThere(p, y, newHash);
  }

  /** Nothing has been decided about a hash that is not on the ledger. */
  lemma NotYetThere(p: SessionPolicy, y: System, hash: TokenHash)
    requires Reachable(p, y) && hash !in y.ledger
    ensures On(y.log, OfGen(hash)) == []
  {
    var start, ops :| ValidRun(p, Initial(start), ops) && y == Run(p, Initial(start), ops);
    InitialInv(p, start);
    RunLives(p, Initial(start), ops);
    assert Lived(y.ledger, Replay(y.log), On(y.log, OfGen(hash)), hash);
  }

  lemma MadeInsertedLast(insert: Command, after: seq<Command>, hash: TokenHash, at: Timestamp)
    requires insert.InsertGeneration? && SupersedesRow(after, hash, at)
    ensures Made(after + [insert]) == Some(Inserted(insert))
    ensures Made([insert] + after) != Some(Inserted(insert))
  {
    if |after| == 2 {
      assert after + [insert] == [after[0], after[1], insert] && [insert] + after == [insert, after[0], after[1]];
      MadeOfThree(after[0], after[1], insert);
      MadeOfThree(insert, after[0], after[1]);
    } else {
      assert after + [insert] == [after[0], insert] && [insert] + after == [insert, after[0]];
      MadeOfTwo(after[0], insert);
      MadeOfTwo(insert, after[0]);
    }
  }

  lemma Overtaken(head: seq<Command>, first: seq<Command>, second: seq<Command>, hash: TokenHash, at: Timestamp)
    requires On(head, OfGen(hash)) == [] && InsertsRow(On(first, OfGen(hash)), hash)
    requires SupersedesRow(On(second, OfGen(hash)), hash, at)
    ensures RowAt(Replay(head + second + first), hash) == Some(Inserted(On(first, OfGen(hash))[0]))
    ensures RowAt(Replay(head + first + second), hash) != Some(Inserted(On(first, OfGen(hash))[0]))
  {
    var insert, after := On(first, OfGen(hash))[0], On(second, OfGen(hash));
    OnThree(head, second, first, OfGen(hash));
    OnThree(head, first, second, OfGen(hash));
    assert On(first, OfGen(hash)) == [insert];
    assert [] + after + [insert] == after + [insert] && [] + [insert] + after == [insert] + after;
    MadeInsertedLast(insert, after, hash, at);
    RowByItsOwn(head + second + first, hash);
    RowByItsOwn(head + first + second, hash);
  }

  /** The second of two threads is through before the first. */
  lemma MintsOvertake(head: seq<Command>, first: seq<Command>, second: seq<Command>) returns (ms: seq<Move>)
    ensures CanAll(Idle(2), ms) && AllSent(GoAll(Idle(2), ms))
    ensures GoAll(Idle(2), ms) == Sending(head + first + second, [[], []], head + second + first)
  {
    var start := Sending(head, [[], []], head);
    var before := Settles(head);
    var both := BothDecide(start, first, second);
    var s := Sending(head + first + second, [first, second], head);
    var early := HandsAll(s, 1);
    var between := Sending(head + first + second, [first, []], head + second);
    assert GoAll(s, early) == between;
    var late := HandsAll(between, 0);
    GoesOn(s, early, late);
    GoesOn(start, both, early + late);
    GoesOn(Idle(2), before, both + (early + late));
    ms := before + (both + (early + late));
  }

  /** One thread sees a batch through. */
  lemma Settles(head: seq<Command>) returns (ms: seq<Move>)
    ensures CanAll(Idle(2), ms) && GoAll(Idle(2), ms) == Sending(head, [[], []], head)
  {
    var one := Sending(head, [head, []], []);
    assert Idle(2).owed == [[], []] && Idle(2).owed[0 := head] == [head, []] && [] + head == head;
    assert Go(Idle(2), Decide(0, head)) == one;
    OneMove(Idle(2), Decide(0, head));
    var rest := HandsAll(one, 0);
    assert one.owed[0 := []] == [[], []] && [] + head == head;
    GoesOn(Idle(2), [Decide(0, head)], rest);
    ms := [Decide(0, head)] + rest;
  }

  lemma BothDecide(s: Sending, first: seq<Command>, second: seq<Command>) returns (ms: seq<Move>)
    requires s.owed == [[], []]
    ensures CanAll(s, ms) && GoAll(s, ms) == s.(plan := s.plan + first + second, owed := [first, second])
  {
    var one := s.(plan := s.plan + first, owed := [first, []]);
    assert s.owed[0 := first] == [first, []] && one.owed[1 := second] == [first, second];
    OneMove(s, Decide(0, first));
    OneMove(one, Decide(1, second));
    GoesOn(s, [Decide(0, first)], [Decide(1, second)]);
    ms := [Decide(0, first)] + [Decide(1, second)];
  }

  lemma OneMove(s: Sending, m: Move)
    requires Can(s, m)
    ensures CanAll(s, [m]) && GoAll(s, [m]) == Go(s, m)
  {
    assert [m][1..] == [];
  }

  /** A thread hands over all it owes. */
  lemma {:induction false} HandsAll(s: Sending, t: nat) returns (ms: seq<Move>)
    requires t < |s.owed|
    ensures CanAll(s, ms) && GoAll(s, ms) == s.(owed := s.owed[t := []], sent := s.sent + s.owed[t])
    decreases |s.owed[t]|
  {
    if s.owed[t] == [] {
      ms := [];
      assert s.owed[t := []] == s.owed && s.sent + [] == s.sent;
    } else {
      var debt, next := s.owed[t], Go(s, HandOver(t));
      var rest := HandsAll(next, t);
      ms := [HandOver(t)] + rest;
      assert ms[1..] == rest;
      assert s.sent + [debt[0]] + debt[1..] == s.sent + debt;
      assert next.owed[t := []] == s.owed[t := []];
    }
  }

  lemma {:induction false} GoesOn(s: Sending, a: seq<Move>, b: seq<Move>)
    requires CanAll(s, a) && CanAll(GoAll(s, a), b)
    ensures CanAll(s, a + b) && GoAll(s, a + b) == GoAll(GoAll(s, a), b)
    decreases |a|
  {
    if a == [] {
      assert a + b == b;
    } else {
      assert (a + b)[0] == a[0] && (a + b)[1..] == a[1..] + b;
      GoesOn(Go(s, a[0]), a[1..], b);
    }
  }
}
