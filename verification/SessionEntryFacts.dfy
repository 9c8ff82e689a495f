/** What reaping and minting keep true of one entry. */
module SessionEntryFacts {
  import opened Prelude
  import opened SessionModel
  import opened SessionStore

  predicate DistinctGens(gens: seq<Generation>) {
    forall i, j :: 0 <= i < j < |gens| ==> gens[i].hash != gens[j].hash
  }

  predicate DistinctMarks(marks: seq<Mark>) {
    forall i, j :: 0 <= i < j < |marks| ==> marks[i].hash != marks[j].hash
  }

  predicate Apart(gens: seq<Generation>, marks: seq<Mark>) {
    forall g, m :: g in gens && m in marks ==> g.hash != m.hash
  }

  /** Generations oldest first, the last of them current and the only one not superseded. */
  predicate Ladder(gens: seq<Generation>, current: nat) {
    && gens != []
    && gens[|gens| - 1].genNo == current
    && (forall i, j :: 0 <= i < j < |gens| ==> gens[i].genNo < gens[j].genNo)
    && (forall i :: 0 <= i < |gens| ==> (gens[i].supersededAt.None? <==> i == |gens| - 1))
  }

  /** What every operation keeps of every entry. */
  predicate EntryOk(p: SessionPolicy, e: Entry) {
    && Ladder(e.gens, e.currentGen)
    && DistinctGens(e.gens) && DistinctMarks(e.retired) && Apart(e.gens, e.retired)
    && |e.retired| <= p.retiredMemory
    && e.idleExp <= e.absoluteExp
    && (e.currentToken.Some? ==> e.currentToken.value == e.gens[|e.gens| - 1].hash)
    && (e.status.Tombstoned? <==> e.tombstonedAt.Some?)
  }

  // ---------------------------------------------------------------------------------------
  // Kept and dropped generations by position
  // ---------------------------------------------------------------------------------------

  /** The positions of the generations that are (or are not) expired. */
  function Positions(gens: seq<Generation>, current: nat, now: Timestamp, grace: nat, expired: bool): (at: seq<nat>)
    ensures forall k :: 0 <= k < |at| ==> at[k] < |gens| && Expired(gens[at[k]], current, now, grace) == expired
    ensures forall j, k :: 0 <= j < k < |at| ==> at[j] < at[k]
  {
    if gens == [] then []
    else
      var last := |gens| - 1;
      Positions(gens[..last], current, now, grace, expired)
      + (if Expired(gens[last], current, now, grace) == expired then [last] else [])
  }

  lemma {:induction false} ByPosition(gens: seq<Generation>, current: nat, now: Timestamp, grace: nat)
    ensures var at, kept := Positions(gens, current, now, grace, false), Kept(gens, current, now, grace);
            |at| == |kept| && forall k :: 0 <= k < |at| ==> kept[k] == gens[at[k]]
    ensures var at, dropped := Positions(gens, current, now, grace, true), Dropped(gens, current, now, grace);
            |at| == |dropped| && forall k :: 0 <= k < |at| ==> dropped[k] == gens[at[k]]
  {
    if gens != [] {
      ByPosition(gens[..|gens| - 1], current, now, grace);
    }
  }

  predicate Rising(at: seq<nat>, bound: nat) {
    (forall k :: 0 <= k < |at| ==> at[k] < bound) && (forall j, k :: 0 <= j < k < |at| ==> at[j] < at[k])
  }

  predicate Picks(gens: seq<Generation>, at: seq<nat>, sub: seq<Generation>) {
    Rising(at, |gens|) && |sub| == |at| && forall k :: 0 <= k < |at| ==> sub[k] == gens[at[k]]
  }

  lemma PicksDistinct(gens: seq<Generation>, at: seq<nat>, sub: seq<Generation>)
    requires Picks(gens, at, sub) && DistinctGens(gens)
    ensures DistinctGens(sub)
  {
  }

  /** A subsequence that keeps the last rung is a ladder. */
  lemma PicksLadder(gens: seq<Generation>, at: seq<nat>, sub: seq<Generation>, current: nat)
    requires Picks(gens, at, sub) && Ladder(gens, current)
    requires sub != [] && sub[|sub| - 1] == gens[|gens| - 1]
    ensures Ladder(sub, current)
  {
    var top := |gens| - 1;
    assert gens[at[|at| - 1]].genNo == gens[top].genNo;
    assert at[|at| - 1] == top;
    forall k | 0 <= k < |sub| - 1 ensures sub[k].supersededAt.Some? {
      assert at[k] < top;
    }
  }

  lemma TailLadder(gens: seq<Generation>, current: nat, k: nat)
    requires Ladder(gens, current) && k < |gens|
    ensures Ladder(gens[k..], current)
  {
  }

  // ---------------------------------------------------------------------------------------
  // Reaping
  // ---------------------------------------------------------------------------------------

  /** How many unexpired generations the cap pushes out. */
  function Over(e: Entry, now: Timestamp, p: SessionPolicy): nat {
    var kept := Kept(e.gens, e.currentGen, now, p.grace);
    if |kept| > p.Cap() then |kept| - p.Cap() else 0
  }

  /** The generations reaping retires, in order. */
  function Leaving(e: Entry, now: Timestamp, p: SessionPolicy): seq<Generation> {
    Dropped(e.gens, e.currentGen, now, p.grace) + Kept(e.gens, e.currentGen, now, p.grace)[..Over(e, now, p)]
  }

  lemma KeptLadder(e: Entry, now: Timestamp, grace: nat)
    requires Ladder(e.gens, e.currentGen) && DistinctGens(e.gens)
    ensures var kept := Kept(e.gens, e.currentGen, now, grace);
            Ladder(kept, e.currentGen) && DistinctGens(kept) && kept[|kept| - 1] == e.gens[|e.gens| - 1]
  {
    var last := |e.gens| - 1;
    var kept := Kept(e.gens, e.currentGen, now, grace);
    assert e.gens == e.gens[..last] + [e.gens[last]];
    KeptSnoc(e.gens[..last], e.gens[last], e.currentGen, now, grace);
    ByPosition(e.gens, e.currentGen, now, grace);
    var at := Positions(e.gens, e.currentGen, now, grace, false);
    PicksDistinct(e.gens, at, kept);
    PicksLadder(e.gens, at, kept, e.currentGen);
  }

  lemma ReapedGens(e: Entry, now: Timestamp, p: SessionPolicy)
    requires Ladder(e.gens, e.currentGen) && DistinctGens(e.gens)
    ensures var gens := Reap(e, now, p).entry.gens;
            && Ladder(gens, e.currentGen) && DistinctGens(gens)
            && gens[|gens| - 1] == e.gens[|e.gens| - 1]
            && |gens| <= p.Cap()
            && forall g :: g in gens ==> g in e.gens
  {
    var kept, over := Kept(e.gens, e.currentGen, now, p.grace), Over(e, now, p);
    KeptLadder(e, now, p.grace);
    KeptOrDropped(e.gens, e.currentGen, now, p.grace);
    TailLadder(kept, e.currentGen, over);
    assert Reap(e, now, p).entry.gens == kept[over..];
  }

  lemma KeptApartFromDropped(gens: seq<Generation>, current: nat, now: Timestamp, grace: nat, d: Generation,
                             k: Generation)
    requires DistinctGens(gens)
    requires d in Dropped(gens, current, now, grace) && k in Kept(gens, current, now, grace)
    ensures d.hash != k.hash
  {
    KeptOrDropped(gens, current, now, grace);
    var i :| 0 <= i < |gens| && gens[i] == d;
    var j :| 0 <= j < |gens| && gens[j] == k;
    if i < j {
      assert gens[i].hash != gens[j].hash;
    } else if j < i {
      assert gens[j].hash != gens[i].hash;
    }
  }

  lemma SplitIsApart(gens: seq<Generation>, n: nat, g: Generation, h: Generation)
    requires DistinctGens(gens) && n <= |gens| && g in gens[..n] && h in gens[n..]
    ensures g.hash != h.hash
  {
    var i :| 0 <= i < n && gens[i] == g;
    var j :| 0 <= j < |gens[n..]| && gens[n..][j] == h;
    assert gens[n + j] == h;
  }

  lemma AppendDistinct(a: seq<Generation>, b: seq<Generation>)
    requires DistinctGens(a) && DistinctGens(b)
    requires forall g, h :: g in a && h in b ==> g.hash != h.hash
    ensures DistinctGens(a + b)
  {
    forall i, j | 0 <= i < j < |a + b| ensures (a + b)[i].hash != (a + b)[j].hash {
      if i < |a| <= j {
        assert a[i] in a && b[j - |a|] in b;
      }
    }
  }

  /** The parts kept, dropped, and what the cap cuts off the front of the kept. */
  lemma PartsDistinct(e: Entry, now: Timestamp, p: SessionPolicy)
    requires DistinctGens(e.gens)
    ensures DistinctGens(Kept(e.gens, e.currentGen, now, p.grace))
    ensures DistinctGens(Dropped(e.gens, e.currentGen, now, p.grace))
    ensures DistinctGens(Leaving(e, now, p))
  {
    var current, grace, over := e.currentGen, p.grace, Over(e, now, p);
    var kept, dropped := Kept(e.gens, current, now, grace), Dropped(e.gens, current, now, grace);
    ByPosition(e.gens, current, now, grace);
    PicksDistinct(e.gens, Positions(e.gens, current, now, grace, false), kept);
    PicksDistinct(e.gens, Positions(e.gens, current, now, grace, true), dropped);
    forall g, h | g in dropped && h in kept[..over] ensures g.hash != h.hash {
      assert h in kept;
      KeptApartFromDropped(e.gens, current, now, grace, g, h);
    }
    AppendDistinct(dropped, kept[..over]);
  }

  /** Every generation stays or leaves. */
  lemma StaysOrLeaves(e: Entry, now: Timestamp, p: SessionPolicy)
    ensures forall g :: g in e.gens <==> g in Leaving(e, now, p) || g in Reap(e, now, p).entry.gens
  {
    var kept, over := Kept(e.gens, e.currentGen, now, p.grace), Over(e, now, p);
    KeptOrDropped(e.gens, e.currentGen, now, p.grace);
    assert kept == kept[..over] + kept[over..];
    assert Reap(e, now, p).entry.gens == kept[over..];
  }

  /** None does both. */
  lemma LeavingApart(e: Entry, now: Timestamp, p: SessionPolicy)
    requires DistinctGens(e.gens)
    ensures forall g, h :: g in Leaving(e, now, p) && h in Reap(e, now, p).entry.gens ==> g.hash != h.hash
  {
    var kept, over := Kept(e.gens, e.currentGen, now, p.grace), Over(e, now, p);
    PartsDistinct(e, now, p);
    forall g, h | g in Leaving(e, now, p) && h in Reap(e, now, p).entry.gens ensures g.hash != h.hash {
      assert h in kept[over..] && h in kept;
      if g in kept[..over] {
        SplitIsApart(kept, over, g, h);
      } else {
        KeptApartFromDropped(e.gens, e.currentGen, now, p.grace, g, h);
      }
    }
  }

  // ---------------------------------------------------------------------------------------
  // Retiring
  // ---------------------------------------------------------------------------------------

  function MarkHashes(marks: seq<Mark>): set<TokenHash> {
    set m | m in marks :: m.hash
  }

  /** The retired memory stays distinct and bounded, and gains only what was retired. */
  lemma RetireMarks(retired: seq<Mark>, gens: seq<Generation>, memory: nat)
    requires DistinctMarks(retired) && DistinctGens(gens) && Apart(gens, retired) && |retired| <= memory
    ensures var marks := RetireAll(retired, gens, memory).0;
            && DistinctMarks(marks) && |marks| <= memory
            && (forall m :: m in marks ==> m in retired || m in Marks(gens))
  {
    AllDistinct(retired, gens);
  }

  lemma MarkHashesAppend(retired: seq<Mark>, gens: seq<Generation>)
    ensures MarkHashes(retired + Marks(gens)) == MarkHashes(retired) + HashSet(gens)
  {
    var all := retired + Marks(gens);
    forall h | h in HashSet(gens) ensures h in MarkHashes(all) {
      var i :| 0 <= i < |gens| && gens[i].hash == h;
      assert all[|retired| + i].hash == h;
    }
    forall h | h in MarkHashes(retired) ensures h in MarkHashes(all) {
      var i :| 0 <= i < |retired| && retired[i].hash == h;
      assert all[i].hash == h;
    }
    forall h | h in MarkHashes(all) ensures h in MarkHashes(retired) + HashSet(gens) {
      var i :| 0 <= i < |all| && all[i].hash == h;
      if i >= |retired| {
        assert gens[i - |retired|] in gens;
      }
    }
  }

  /** The retired memory and the purged hashes together are the old memory and the newly retired,
      and they do not overlap. */
  lemma RetireHashes(retired: seq<Mark>, gens: seq<Generation>, memory: nat)
    requires DistinctMarks(retired) && DistinctGens(gens) && Apart(gens, retired)
    ensures var (marks, purged) := RetireAll(retired, gens, memory);
            var gone := set h | h in purged;
            && MarkHashes(marks) + gone == MarkHashes(retired) + HashSet(gens)
            && MarkHashes(marks) !! gone
  {
    if gens != [] {
      AllDistinct(retired, gens);
      MarkHashesAppend(retired, gens);
      TrimFacts(retired + Marks(gens), Overflow(retired + Marks(gens), memory));
    }
  }

  lemma AllDistinct(retired: seq<Mark>, gens: seq<Generation>)
    requires DistinctMarks(retired) && DistinctGens(gens) && Apart(gens, retired)
    ensures DistinctMarks(retired + Marks(gens))
  {
    var all := retired + Marks(gens);
    forall i, j | 0 <= i < j < |all| ensures all[i].hash != all[j].hash {
      if i < |retired| <= j {
        assert retired[i] in retired && gens[j - |retired|] in gens;
      }
    }
  }

  lemma TrimFacts(all: seq<Mark>, k: nat)
    requires DistinctMarks(all) && k <= |all|
    ensures DistinctMarks(all[k..])
    ensures forall m :: m in all[k..] ==> m in all
    ensures forall h :: h in Hashes(all[..k]) ==> h in MarkHashes(all) && h !in MarkHashes(all[k..])
    ensures forall h :: h in MarkHashes(all) ==> h in MarkHashes(all[k..]) || h in Hashes(all[..k])
  {
    forall h | h in Hashes(all[..k]) ensures h in MarkHashes(all) && h !in MarkHashes(all[k..]) {
      var i :| 0 <= i < k && all[i].hash == h;
      assert all[i] in all;
    }
    forall h | h in MarkHashes(all) ensures h in MarkHashes(all[k..]) || h in Hashes(all[..k]) {
      var i :| 0 <= i < |all| && all[i].hash == h;
      if i < k {
        assert Hashes(all[..k])[i] == h;
      } else {
        assert all[k..][i - k] == all[i];
      }
    }
  }

  /** Retiring what leaves is retiring in one go. */
  lemma ReapRetires(e: Entry, now: Timestamp, p: SessionPolicy)
    ensures var r := Reap(e, now, p);
            (r.entry.retired, r.purged) == RetireAll(e.retired, Leaving(e, now, p), p.retiredMemory)
  {
  }

  lemma MarksApart(gens: seq<Generation>, leaving: seq<Generation>, retired: seq<Mark>, marks: seq<Mark>)
    requires Apart(gens, retired)
    requires forall g, h :: g in leaving && h in gens ==> g.hash != h.hash
    requires forall m :: m in marks ==> m in retired || m in Marks(leaving)
    ensures Apart(gens, marks)
  {
    forall g, m | g in gens && m in marks ensures g.hash != m.hash {
      if m in Marks(leaving) {
        var i :| 0 <= i < |leaving| && Marks(leaving)[i] == m;
        assert leaving[i] in leaving;
      }
    }
  }

  /** Reaping keeps an entry in order. */
  lemma ReapKeepsOk(p: SessionPolicy, e: Entry, now: Timestamp)
    requires EntryOk(p, e)
    ensures EntryOk(p, Reap(e, now, p).entry)
  {
    var leaving := Leaving(e, now, p);
    ReapedGens(e, now, p);
    PartsDistinct(e, now, p);
    StaysOrLeaves(e, now, p);
    LeavingApart(e, now, p);
    ReapRetires(e, now, p);
    RetireMarks(e.retired, leaving, p.retiredMemory);
    MarksApart(Reap(e, now, p).entry.gens, leaving, e.retired, Reap(e, now, p).entry.retired);
  }

  /** A session's hashes change by exactly what reaping purges. */
  lemma ReapPurges(p: SessionPolicy, e: Entry, now: Timestamp)
    requires EntryOk(p, e)
    ensures var r := Reap(e, now, p);
            var gone := set h | h in r.purged;
            AllHashes(r.entry) == AllHashes(e) - gone && gone <= AllHashes(e)
  {
    var r, leaving := Reap(e, now, p), Leaving(e, now, p);
    var gone := set h | h in r.purged;
    PartsDistinct(e, now, p);
    StaysOrLeaves(e, now, p);
    LeavingApart(e, now, p);
    ReapRetires(e, now, p);
    RetireHashes(e.retired, leaving, p.retiredMemory);
    HashesSplit(e.gens, leaving, r.entry.gens);
    assert HashSet(leaving) !! HashSet(r.entry.gens);
    assert HashSet(r.entry.gens) !! MarkHashes(e.retired);
    SetAlgebra(HashSet(r.entry.gens), HashSet(leaving), MarkHashes(e.retired), MarkHashes(r.entry.retired), gone);
    assert AllHashes(e) == HashSet(e.gens) + MarkHashes(e.retired);
    assert AllHashes(r.entry) == HashSet(r.entry.gens) + MarkHashes(r.entry.retired);
  }

  lemma SetAlgebra<T>(stay: set<T>, leave: set<T>, before: set<T>, marks: set<T>, gone: set<T>)
    requires stay !! leave && stay !! before && marks !! gone && marks + gone == before + leave
    ensures stay + marks == (leave + stay + before) - gone && gone <= leave + stay + before
  {
  }

  lemma HashesSplit(gens: seq<Generation>, a: seq<Generation>, b: seq<Generation>)
    requires forall g :: g in gens <==> g in a || g in b
    ensures HashSet(gens) == HashSet(a) + HashSet(b)
  {
  }

  /** Only a superseded generation leaves. */
  lemma LeavingIsOld(p: SessionPolicy, e: Entry, now: Timestamp, g: Generation)
    requires Ladder(e.gens, e.currentGen) && DistinctGens(e.gens) && g in Leaving(e, now, p)
    ensures g in e.gens && g.supersededAt.Some? && g.genNo != e.currentGen
  {
    var top := e.gens[|e.gens| - 1];
    var staying := Reap(e, now, p).entry.gens;
    StaysOrLeaves(e, now, p);
    LeavingApart(e, now, p);
    ReapKeepsCurrent(e, now, p);
    assert top in staying && g.hash != top.hash;
    OldRung(e.gens, e.currentGen, g);
  }

  lemma OldRung(gens: seq<Generation>, current: nat, g: Generation)
    requires Ladder(gens, current) && g in gens && g.hash != gens[|gens| - 1].hash
    ensures g.supersededAt.Some? && g.genNo != current
  {
    var j :| 0 <= j < |gens| && gens[j] == g;
    assert j < |gens| - 1;
  }

  /** What leaves was superseded, and had expired or was pushed out by the cap. */
  lemma LeavingWasExpiredOrCapped(p: SessionPolicy, e: Entry, now: Timestamp, g: Generation)
    requires EntryOk(p, e) && g in Leaving(e, now, p)
    ensures g in e.gens && g.supersededAt.Some? && g.genNo != e.currentGen
    ensures now >= g.ValidUntil(p.grace) || g in Reap(e, now, p).capped
  {
    LeavingIsOld(p, e, now, g);
    KeptOrDropped(e.gens, e.currentGen, now, p.grace);
  }

  /** A new retired mark names a generation that had expired, or one the cap pushed out. */
  lemma RetiredWasExpiredOrCapped(p: SessionPolicy, e: Entry, now: Timestamp, m: Mark) returns (g: Generation)
    requires EntryOk(p, e) && m in Reap(e, now, p).entry.retired && m !in e.retired
    ensures g in e.gens && m == Mark(g.hash, g.genNo) && g.supersededAt.Some?
    ensures now >= g.ValidUntil(p.grace) || g in Reap(e, now, p).capped
  {
    var leaving := Leaving(e, now, p);
    PartsDistinct(e, now, p);
    StaysOrLeaves(e, now, p);
    ReapRetires(e, now, p);
    RetireMarks(e.retired, leaving, p.retiredMemory);
    var i :| 0 <= i < |leaving| && Marks(leaving)[i] == m;
    g := leaving[i];
    LeavingWasExpiredOrCapped(p, e, now, g);
  }

  /** What the cap pushes out had not expired, and is not the newest. */
  lemma CappedWasUnexpired(p: SessionPolicy, e: Entry, now: Timestamp, g: Generation)
    requires EntryOk(p, e) && g in Reap(e, now, p).capped
    ensures g in e.gens && now < g.ValidUntil(p.grace) && g.genNo != e.currentGen
  {
    var kept := Kept(e.gens, e.currentGen, now, p.grace);
    KeptOrDropped(e.gens, e.currentGen, now, p.grace);
    assert g in kept[..Over(e, now, p)] && g in kept;
    LeavingWasExpiredOrCapped(p, e, now, g);
  }

  // ---------------------------------------------------------------------------------------
  // Minting
  // ---------------------------------------------------------------------------------------

  lemma GrownLadder(e: Entry, now: Timestamp, p: SessionPolicy, newHash: TokenHash)
    requires Ladder(e.gens, e.currentGen)
    ensures Ladder(Grown(e, now, p, newHash).gens, e.currentGen + 1)
  {
    var gens, n := Grown(e, now, p, newHash).gens, |e.gens|;
    assert |gens| == n + 1;
    forall i | 0 <= i < n ensures gens[i].genNo == e.gens[i].genNo <= e.currentGen && gens[i].supersededAt.Some? {
      assert i == n - 1 || gens[i] == e.gens[i];
    }
    forall i, j | 0 <= i < j <= n ensures gens[i].genNo < gens[j].genNo {
      if j < n {
        assert e.gens[i].genNo < e.gens[j].genNo;
      }
    }
  }

  lemma GrownDistinct(gens: seq<Generation>, grown: seq<Generation>, newHash: TokenHash)
    requires DistinctGens(gens) && newHash !in HashSet(gens)
    requires |grown| == |gens| + 1 && grown[|gens|].hash == newHash
    requires forall i :: 0 <= i < |gens| ==> grown[i].hash == gens[i].hash
    ensures DistinctGens(grown)
  {
    forall i | 0 <= i < |gens| ensures gens[i].hash in HashSet(gens) {
      assert gens[i] in gens;
    }
  }

  lemma GrownOk(p: SessionPolicy, e: Entry, now: Timestamp, newHash: TokenHash)
    requires EntryOk(p, e) && newHash !in AllHashes(e)
    ensures EntryOk(p, Grown(e, now, p, newHash))
    ensures AllHashes(Grown(e, now, p, newHash)) == AllHashes(e) + {newHash}
  {
    var gens := Grown(e, now, p, newHash).gens;
    GrownLadder(e, now, p, newHash);
    GrownDistinct(e.gens, gens, newHash);
    GrownHashes(e.gens, gens, newHash);
    forall g, m | g in gens && m in e.retired ensures g.hash != m.hash {
      assert g.hash in HashSet(gens) && m.hash in AllHashes(e);
      if g.hash in HashSet(e.gens) {
        var h :| h in e.gens && h.hash == g.hash;
      }
    }
  }

  lemma GrownHashes(gens: seq<Generation>, grown: seq<Generation>, newHash: TokenHash)
    requires |grown| == |gens| + 1 && grown[|gens|].hash == newHash
    requires forall i :: 0 <= i < |gens| ==> grown[i].hash == gens[i].hash
    ensures HashSet(grown) == HashSet(gens) + {newHash}
  {
    forall h | h in HashSet(gens) + {newHash} ensures h in HashSet(grown) {
      if h == newHash {
        assert grown[|gens|] in grown;
      } else {
        var i :| 0 <= i < |gens| && gens[i].hash == h;
        assert grown[i] in grown;
      }
    }
    forall h | h in HashSet(grown) ensures h in HashSet(gens) + {newHash} {
      var i :| 0 <= i < |grown| && grown[i].hash == h;
      if i < |gens| {
        assert gens[i] in gens;
      }
    }
  }

  /** Minting keeps an entry in order; its hashes gain the new one and lose the purged. */
  lemma MintFacts(p: SessionPolicy, e: Entry, now: Timestamp, newHash: TokenHash)
    requires EntryOk(p, e) && newHash !in AllHashes(e)
    ensures var m := Mint(e, now, p, newHash);
            var gone := set h | h in m.effects.purged;
            && EntryOk(p, m.entry)
            && AllHashes(m.entry) == AllHashes(e) + {newHash} - gone
            && gone <= AllHashes(e)
  {
    var grown := Grown(e, now, p, newHash);
    var m := Mint(e, now, p, newHash);
    GrownOk(p, e, now, newHash);
    ReapKeepsOk(p, grown, now);
    ReapPurges(p, grown, now);
    MintKeepsCurrent(e, now, p, newHash);
    assert m.entry.gens[|m.entry.gens| - 1] in m.entry.gens;
    assert newHash in AllHashes(m.entry);
  }
}
