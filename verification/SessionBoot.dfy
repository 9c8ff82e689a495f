/** What the boot loop reads, and why visiting the rows one session at a time builds the whole map. */
module SessionBoot {
  import opened SessionModel
  import opened SessionStore
  import opened SessionInvariant
  import opened SessionRestart

  /** One session as read from the tables: its row, and its generation rows in any order. */
  datatype Restored = Restored(sid: Sid, row: SessionRow, gens: seq<Generation>)

  // ---------------------------------------------------------------------------------------
  // Sorting by generation number
  // ---------------------------------------------------------------------------------------

  predicate NumbersDiffer(gens: seq<Generation>) {
    forall i, j :: 0 <= i < j < |gens| ==> gens[i].genNo != gens[j].genNo
  }

  method InsertByNumber(gens: seq<Generation>, g: Generation) returns (r: seq<Generation>)
    requires Ascending(gens) && forall x :: x in gens ==> x.genNo != g.genNo
    ensures Ascending(r) && forall x :: x in r <==> x in gens || x == g
  {
    var i := |gens|;
    while i > 0 && gens[i - 1].genNo > g.genNo
      invariant 0 <= i <= |gens| && forall j :: i <= j < |gens| ==> gens[j].genNo > g.genNo
    {
      i := i - 1;
    }
    InsertsAt(gens, i, g);
    r := gens[..i] + [g] + gens[i..];
  }

  lemma InsertsAt(gens: seq<Generation>, i: nat, g: Generation)
    requires Ascending(gens) && i <= |gens| && forall x :: x in gens ==> x.genNo != g.genNo
    requires (i > 0 ==> gens[i - 1].genNo <= g.genNo) && forall j :: i <= j < |gens| ==> gens[j].genNo > g.genNo
    ensures Ascending(gens[..i] + [g] + gens[i..])
    ensures forall x :: x in gens[..i] + [g] + gens[i..] <==> x in gens || x == g
  {
    assert gens == gens[..i] + gens[i..];
    assert i > 0 ==> gens[i - 1] in gens;
    forall j | 0 <= j < i ensures gens[j].genNo < g.genNo {
      assert j < i - 1 ==> gens[j].genNo < gens[i - 1].genNo;
    }
    AscendsThrough(gens[..i], g, gens[i..]);
  }

  lemma AscendsThrough(low: seq<Generation>, g: Generation, high: seq<Generation>)
    requires Ascending(low) && Ascending(high)
    requires forall j :: 0 <= j < |low| ==> low[j].genNo < g.genNo
    requires forall j :: 0 <= j < |high| ==> g.genNo < high[j].genNo
    ensures Ascending(low + [g] + high)
  {
  }

  /** The rows in order of generation number. */
  method SortByNumber(gens: seq<Generation>) returns (r: seq<Generation>)
    requires NumbersDiffer(gens)
    ensures Ascending(r) && forall x :: x in r <==> x in gens
  {
    r := [];
    for i := 0 to |gens|
      invariant Ascending(r) && forall x :: x in r <==> x in gens[..i]
    {
      assert gens[..i + 1] == gens[..i] + [gens[i]];
      r := InsertByNumber(r, gens[i]);
    }
    assert gens[..|gens|] == gens;
  }

  lemma {:induction false} AscendingUnique(a: seq<Generation>, b: seq<Generation>)
    requires Ascending(a) && Ascending(b) && forall g :: g in a <==> g in b
    ensures a == b
    decreases |a|
  {
    if a == [] {
      if b != [] {
        SameFirst(b, a);
      }
    } else {
      SameFirst(a, b);
      forall g ensures g in a[1..] <==> g in b[1..] {
        TailHas(a, g);
        TailHas(b, g);
      }
      AscendingUnique(a[1..], b[1..]);
      assert a == [a[0]] + a[1..] && b == [b[0]] + b[1..];
    }
  }

  lemma SameFirst(a: seq<Generation>, b: seq<Generation>)
    requires Ascending(a) && Ascending(b) && a != [] && forall g :: g in a <==> g in b
    ensures b != [] && a[0] == b[0]
  {
    assert a[0] in b;
    assert b[0] in a;
    LowestFirst(a, b[0]);
    LowestFirst(b, a[0]);
  }

  lemma LowestFirst(a: seq<Generation>, g: Generation)
    requires Ascending(a) && g in a
    ensures a[0] == g || a[0].genNo < g.genNo
  {
    var i :| 0 <= i < |a| && a[i] == g;
  }

  lemma TailHas(a: seq<Generation>, g: Generation)
    requires a != [] && Ascending(a)
    ensures g in a[1..] <==> g in a && g != a[0]
  {
    if g in a[1..] {
      var i :| 0 <= i < |a[1..]| && a[1..][i] == g;
      assert a[0].genNo < a[i + 1].genNo;
    }
    if g in a && g != a[0] {
      var i :| 0 <= i < |a| && a[i] == g;
      assert a[1..][i - 1] == g;
    }
  }

  // ---------------------------------------------------------------------------------------
  // Reading the tables back
  // ---------------------------------------------------------------------------------------

  /** These rows are what the tables hold of this session: every generation row, once. */
  ghost predicate ReadsBack(db: Db, r: Restored) {
    && Restorable(db, r.sid) && r.row == db.sessions[r.sid]
    && (forall g :: g in r.gens <==> g in RowsOf(db, r.sid))
    && forall i, j :: 0 <= i < j < |r.gens| ==> r.gens[i] != r.gens[j]
  }

  /** A listing of every session a boot brings back, each once. */
  ghost predicate ReadsAll(db: Db, rows: seq<Restored>) {
    && (forall i {:trigger ReadsBack(db, rows[i])} :: 0 <= i < |rows| ==> ReadsBack(db, rows[i]))
    && (forall i, j :: 0 <= i < j < |rows| ==> rows[i].sid != rows[j].sid)
    && forall sid :: Restorable(db, sid) ==> exists i :: 0 <= i < |rows| && rows[i].sid == sid
  }

  lemma RowsDiffer(db: Db, ledger: map<TokenHash, GenRow>, r: Restored)
    requires TablesOk(db, ledger) && ReadsBack(db, r)
    ensures NumbersDiffer(r.gens) && r.gens != []
  {
    RowsAreDistinct(db, ledger, r.sid);
    forall i, j | 0 <= i < j < |r.gens| ensures r.gens[i].genNo != r.gens[j].genNo {
      assert r.gens[i] in r.gens && r.gens[j] in r.gens;
    }
    var g :| g in RowsOf(db, r.sid);
    assert g in r.gens;
  }

  /** Sorted, the rows of a session are its generations as a boot restores them. */
  lemma SortedIsByGenNo(db: Db, ledger: map<TokenHash, GenRow>, r: Restored, ordered: seq<Generation>)
    requires TablesOk(db, ledger) && ReadsBack(db, r)
    requires Ascending(ordered) && forall g :: g in ordered <==> g in r.gens
    ensures ordered == ByGenNo(RowsOf(db, r.sid))
  {
    RowsAreDistinct(db, ledger, r.sid);
    ListedByGenNo(RowsOf(db, r.sid));
    AscendingUnique(ordered, ByGenNo(RowsOf(db, r.sid)));
  }

  function Indexed(index: map<TokenHash, Sid>, gens: seq<Generation>, sid: Sid): map<TokenHash, Sid> {
    if gens == [] then index else Indexed(index, gens[..|gens| - 1], sid)[gens[|gens| - 1].hash := sid]
  }

  lemma {:induction false} IndexedHashes(index: map<TokenHash, Sid>, gens: seq<Generation>, sid: Sid)
    ensures Indexed(index, gens, sid).Keys == index.Keys + HashSet(gens)
    ensures forall h :: h in Indexed(index, gens, sid) ==>
              Indexed(index, gens, sid)[h] == if h in HashSet(gens) then sid else index[h]
    decreases |gens|
  {
    if gens != [] {
      var last := gens[|gens| - 1];
      IndexedHashes(index, gens[..|gens| - 1], sid);
      assert gens == gens[..|gens| - 1] + [last];
      assert HashSet(gens) == HashSet(gens[..|gens| - 1]) + {last.hash};
    }
  }

  /** The entry a boot reinstates. */
  ghost predicate Reinstates(db: Db, sid: Sid, e: Entry) {
    Restorable(db, sid) && e == ReinstatedEntry(sid, db.sessions[sid], ByGenNo(RowsOf(db, sid)))
  }

  ghost predicate AllReinstated(db: Db, entries: map<Sid, Entry>) {
    forall sid {:trigger Reinstates(db, sid, entries[sid])} :: sid in entries ==> Reinstates(db, sid, entries[sid])
  }

  /** These sessions are back, entries and index both. */
  ghost predicate Booted(db: Db, back: set<Sid>, entries: map<Sid, Entry>, index: map<TokenHash, Sid>) {
    entries.Keys == back && AllReinstated(db, entries) && IndexesBack(db, back, index)
  }

  lemma ReinstatesNext(db: Db, entries: map<Sid, Entry>, sid: Sid, e: Entry)
    requires AllReinstated(db, entries) && Reinstates(db, sid, e)
    ensures AllReinstated(db, entries[sid := e])
  {
    var after := entries[sid := e];
    forall x | x in after ensures Reinstates(db, x, after[x]) {
      assert x != sid ==> Reinstates(db, x, entries[x]);
    }
  }

  ghost predicate IndexesBack(db: Db, back: set<Sid>, index: map<TokenHash, Sid>) {
    forall h :: (h in index <==> h in db.gens && db.gens[h].sid in back) && (h in index ==> index[h] == db.gens[h].sid)
  }

  lemma IndexesNext(db: Db, ledger: map<TokenHash, GenRow>, back: set<Sid>, index: map<TokenHash, Sid>, sid: Sid)
    requires TablesOk(db, ledger) && IndexesBack(db, back, index)
    ensures IndexesBack(db, back + {sid}, Indexed(index, ByGenNo(RowsOf(db, sid)), sid))
  {
    BootHashes(db, ledger, sid);
    IndexedHashes(index, ByGenNo(RowsOf(db, sid)), sid);
  }

  lemma BootsNext(db: Db, ledger: map<TokenHash, GenRow>, back: set<Sid>, r: Restored,
                  entries: map<Sid, Entry>, index: map<TokenHash, Sid>, ordered: seq<Generation>)
    requires TablesOk(db, ledger) && ReadsBack(db, r) && Booted(db, back, entries, index)
    requires Ascending(ordered) && forall g :: g in ordered <==> g in r.gens
    ensures Booted(db, back + {r.sid}, entries[r.sid := ReinstatedEntry(r.sid, r.row, ordered)],
                   Indexed(index, ordered, r.sid))
  {
    SortedIsByGenNo(db, ledger, r, ordered);
    ReinstatesNext(db, entries, r.sid, ReinstatedEntry(r.sid, r.row, ordered));
    IndexesNext(db, ledger, back, index, r.sid);
  }

  lemma EntriesAreBoots(db: Db, entries: map<Sid, Entry>)
    requires AllReinstated(db, entries) && forall sid :: Restorable(db, sid) ==> sid in entries
    ensures entries == Boot(db).sessions
  {
    forall sid | sid in entries ensures sid in Boot(db).sessions && entries[sid] == Boot(db).sessions[sid] {
      assert Reinstates(db, sid, entries[sid]);
    }
  }

  lemma IndexIsBoots(db: Db, ledger: map<TokenHash, GenRow>, back: set<Sid>, index: map<TokenHash, Sid>)
    requires TablesOk(db, ledger) && IndexesBack(db, back, index) && forall sid :: Restorable(db, sid) <==> sid in back
    ensures index == Boot(db).index
  {
  }

  lemma AllBooted(db: Db, ledger: map<TokenHash, GenRow>, back: set<Sid>, entries: map<Sid, Entry>,
                  index: map<TokenHash, Sid>)
    requires TablesOk(db, ledger) && Booted(db, back, entries, index)
             && forall sid :: Restorable(db, sid) ==> sid in back
    ensures Store(entries, index) == Boot(db)
  {
    EntriesAreBoots(db, entries);
    forall sid | sid in back ensures Restorable(db, sid) {
      assert Reinstates(db, sid, entries[sid]);
    }
    IndexIsBoots(db, ledger, back, index);
  }

  function SidsOf(rows: seq<Restored>): set<Sid> {
    set r | r in rows :: r.sid
  }

  /** A listing of every session brings back every session. */
  lemma ListsEverySession(db: Db, rows: seq<Restored>)
    requires ReadsAll(db, rows)
    ensures forall sid :: Restorable(db, sid) ==> sid in SidsOf(rows)
  {
    forall sid | Restorable(db, sid) ensures sid in SidsOf(rows) {
      var i :| 0 <= i < |rows| && rows[i].sid == sid;
      assert rows[i] in rows;
    }
  }

  lemma RowsNext(db: Db, rows: seq<Restored>, i: nat)
    requires ReadsAll(db, rows) && i < |rows|
    ensures ReadsBack(db, rows[i]) && SidsOf(rows[..i + 1]) == SidsOf(rows[..i]) + {rows[i].sid}
  {
    assert ReadsBack(db, rows[i]);
    assert rows[..i + 1] == rows[..i] + [rows[i]];
  }

  lemma NothingBooted(db: Db)
    ensures Booted(db, SidsOf([]), map[], map[])
  {
  }
}
