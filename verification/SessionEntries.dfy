/** A session entry as it is kept: fields updated in place under the entry's lock. */
module SessionEntries {
  import opened Prelude
  import opened Custody
  import opened SessionModel

  // ---------------------------------------------------------------------------------------
  // Retiring one at a time
  // ---------------------------------------------------------------------------------------

  /** Retiring one more after a batch is retiring the longer batch. */
  lemma RetireOneMore(retired: seq<Mark>, gens: seq<Generation>, g: Generation, memory: nat)
    requires |retired| <= memory
    ensures var (marks, purged) := RetireAll(retired, gens, memory);
            var all := marks + [Mark(g.hash, g.genNo)];
            var k := Overflow(all, memory);
            RetireAll(retired, gens + [g], memory) == (all[k..], purged + Hashes(all[..k]))
  {
    var before, after := retired + Marks(gens), retired + Marks(gens + [g]);
    assert Marks(gens + [g]) == Marks(gens) + [Mark(g.hash, g.genNo)];
    assert after == before + [Mark(g.hash, g.genNo)];
    var j, k := Overflow(before, memory), Overflow(after, memory);
    assert before[j..] + [Mark(g.hash, g.genNo)] == after[j..];
    assert after[j..][k - j..] == after[k..];
    assert Hashes(before[..j]) + Hashes(after[j..][..k - j]) == Hashes(after[..k]);
    if gens == [] {
      assert before == retired;
      assert [] + Hashes(after[..k]) == Hashes(after[..k]);
    }
  }

  lemma RetiredFits(retired: seq<Mark>, gens: seq<Generation>, memory: nat)
    requires |retired| <= memory
    ensures |RetireAll(retired, gens, memory).0| <= memory
  {
  }

  /** One more of the front of `kept` retired after `dropped`. */
  lemma CapOneMore(retired: seq<Mark>, dropped: seq<Generation>, kept: seq<Generation>, over: nat, memory: nat)
    requires |retired| <= memory && over < |kept|
    ensures var (marks, purged) := RetireAll(retired, dropped + kept[..over], memory);
            var all := marks + [Mark(kept[over].hash, kept[over].genNo)];
            var k := Overflow(all, memory);
            RetireAll(retired, dropped + kept[..over + 1], memory) == (all[k..], purged + Hashes(all[..k]))
  {
    RetireOneMore(retired, dropped + kept[..over], kept[over], memory);
    assert dropped + kept[..over] + [kept[over]] == dropped + kept[..over + 1];
  }

  /** The two halves together are reaping. */
  lemma HalvesReap(e: Entry, after: Entry, purged: seq<TokenHash>, kept: seq<Generation>, over: nat, now: Timestamp,
                   p: SessionPolicy)
    requires kept == Kept(e.gens, e.currentGen, now, p.grace)
    requires over == if |kept| > p.Cap() then |kept| - p.Cap() else 0
    requires after == e.(gens := kept[over..], retired := after.retired)
    requires (after.retired, purged)
          == RetireAll(e.retired, Dropped(e.gens, e.currentGen, now, p.grace) + kept[..over], p.retiredMemory)
    ensures after == Reap(e, now, p).entry && purged == Reap(e, now, p).purged
  {
  }

  class SessionEntry {
    const sid: Sid
    const custody: CustodyId
    const sub: string
    const absoluteExp: Timestamp
    var gens: seq<Generation>
    var currentGen: nat
    var currentToken: Option<TokenHash>
    var idleExp: Timestamp
    var status: SessionStatus
    var tombstonedAt: Option<Timestamp>
    var custodyStatus: CustodyStatus
    var retired: seq<Mark>

    /** The entry as a value. */
    function View(): Entry
      reads this
    {
      Entry(sid, custody, sub, gens, currentGen, currentToken, idleExp, absoluteExp, status, tombstonedAt,
            custodyStatus, retired)
    }

    constructor (e: Entry)
      ensures View() == e
    {
      sid, custody, sub, absoluteExp := e.sid, e.custody, e.sub, e.absoluteExp;
      gens, currentGen, currentToken, idleExp := e.gens, e.currentGen, e.currentToken, e.idleExp;
      status, tombstonedAt, custodyStatus, retired := e.status, e.tombstonedAt, e.custodyStatus, e.retired;
    }

    /** Remember a generation's hash, forgetting the oldest beyond the memory. */
    method Retire(g: Generation, before: seq<TokenHash>, p: SessionPolicy) returns (purged: seq<TokenHash>)
      modifies this`retired
      ensures var all := old(retired) + [Mark(g.hash, g.genNo)];
              var k := Overflow(all, p.retiredMemory);
              retired == all[k..] && purged == before + Hashes(all[..k])
    {
      retired := retired + [Mark(g.hash, g.genNo)];
      purged := before;
      ghost var all := retired;
      ghost var i := 0;
      while |retired| > p.retiredMemory
        invariant 0 <= i <= Overflow(all, p.retiredMemory)
        invariant retired == all[i..] && purged == before + Hashes(all[..i])
      {
        purged := purged + [retired[0].hash];
        retired := retired[1..];
        assert Hashes(all[..i + 1]) == Hashes(all[..i]) + [all[i].hash];
        i := i + 1;
      }
    }

    /** The first half of reaping: drop what can no longer authenticate. */
    method DropExpired(now: Timestamp, p: SessionPolicy) returns (purged: seq<TokenHash>)
      requires |retired| <= p.retiredMemory
      modifies this`gens, this`retired
      ensures gens == Kept(old(gens), currentGen, now, p.grace)
      ensures (retired, purged)
              == RetireAll(old(retired), Dropped(old(gens), currentGen, now, p.grace), p.retiredMemory)
    {
      ghost var dropped := [];
      var kept: seq<Generation> := [];
      purged := [];
      for i := 0 to |gens|
        invariant gens == old(gens) && kept == Kept(gens[..i], currentGen, now, p.grace)
        invariant dropped == Dropped(gens[..i], currentGen, now, p.grace)
        invariant (retired, purged) == RetireAll(old(retired), dropped, p.retiredMemory)
      {
        var g := gens[i];
        assert gens[..i + 1] == gens[..i] + [g];
        KeptSnoc(gens[..i], g, currentGen, now, p.grace);
        if Expired(g, currentGen, now, p.grace) {
          RetireOneMore(old(retired), dropped, g, p.retiredMemory);
          purged := Retire(g, purged, p);
          dropped := dropped + [g];
        } else {
          kept := kept + [g];
        }
      }
      assert gens[..|gens|] == gens;
      gens := kept;
    }

    /** The second half: the cap, oldest first, on top of what `before` retired already. */
    method EnforceCap(p: SessionPolicy, before: seq<TokenHash>, ghost was: seq<Mark>, ghost dropped: seq<Generation>)
      returns (purged: seq<TokenHash>)
      requires |was| <= p.retiredMemory && (retired, before) == RetireAll(was, dropped, p.retiredMemory)
      modifies this`gens, this`retired
      ensures var over := if |old(gens)| > p.Cap() then |old(gens)| - p.Cap() else 0;
              && gens == old(gens)[over..]
              && (retired, purged) == RetireAll(was, dropped + old(gens)[..over], p.retiredMemory)
    {
      purged := before;
      ghost var kept, over := gens, 0;
      assert dropped + kept[..0] == dropped;
      while |gens| > p.Cap()
        invariant 0 <= over <= |kept| && gens == kept[over..]
        invariant over <= if |kept| > p.Cap() then |kept| - p.Cap() else 0
        invariant (retired, purged) == RetireAll(was, dropped + kept[..over], p.retiredMemory)
      {
        CapOneMore(was, dropped, kept, over, p.retiredMemory);
        var g := gens[0];
        gens := gens[1..];
        purged := Retire(g, purged, p);
        over := over + 1;
      }
    }

    /** Drop what can no longer authenticate, then enforce the cap. */
    method ReapGenerations(now: Timestamp, p: SessionPolicy) returns (purged: seq<TokenHash>)
      requires |retired| <= p.retiredMemory
      modifies this`gens, this`retired
      ensures View() == Reap(old(View()), now, p).entry && purged == Reap(old(View()), now, p).purged
    {
      ghost var e, dropped := View(), Dropped(gens, currentGen, now, p.grace);
      purged := DropExpired(now, p);
      ghost var kept := gens;
      purged := EnforceCap(p, purged, e.retired, dropped);
      HalvesReap(e, View(), purged, kept, if |kept| > p.Cap() then |kept| - p.Cap() else 0, now, p);
    }

    /** Supersede the newest generation by a new one. */
    method Mint(now: Timestamp, p: SessionPolicy, newHash: TokenHash) returns (effects: Effects)
      requires gens != [] && |retired| <= p.retiredMemory
      modifies this
      ensures View() == SessionModel.Mint(old(View()), now, p, newHash).entry
      ensures effects == SessionModel.Mint(old(View()), now, p, newHash).effects
    {
      ghost var e := View();
      var last := |gens| - 1;
      var superseded := Some(Supersession(gens[last].hash, now));
      gens := gens[last := gens[last].(supersededAt := Some(now))];
      currentGen := currentGen + 1;
      var g := Generation(currentGen, newHash, now, now + p.genTtl, None);
      gens := gens + [g];
      currentToken := Some(newHash);
      assert gens == Grown(e, now, p, newHash).gens;
      var purged := ReapGenerations(now, p);
      effects := Effects(Some(g), superseded, purged);
    }

    /** Slide idle expiry, never past the absolute ceiling. */
    method SlideIdle(now: Timestamp, p: SessionPolicy)
      modifies this`idleExp
      ensures View() == Slide(old(View()), now, p)
    {
      idleExp := Min(now + p.idleTtl, absoluteExp);
    }

    /** What `refresh` does while it holds the entry: decide, then coalesce or mint, then slide. */
    method RefreshLocked(hash: TokenHash, now: Timestamp, p: SessionPolicy, newHash: TokenHash)
        returns (result: RefreshResult, effects: Effects)
      requires gens != [] && |retired| <= p.retiredMemory
      modifies this
      ensures var r := EntryRefresh(old(View()), hash, now, p, newHash);
              View() == r.entry && result == r.result && effects == r.effects
      ensures result.Issued? ==>
                && gens != [] && result.meta.sub == sub && result.meta.sid == sid && result.meta.gen == currentGen
                && result.meta.activeUntil == gens[|gens| - 1].activeUntil && result.meta.custody == custodyStatus
                && result.meta.refreshUntil == idleExp && result.meta.absoluteUntil == absoluteExp
    {
      effects := NO_EFFECTS;
      match Classify(View(), hash, now, p) {
        case Unknown => return Refused(DeniedUnknown), effects;
        case Retired(sid, genNo) => return Refused(DeniedRetired(sid, genNo)), effects;
        case HardExpired(sid, reason) => return Refused(DeniedExpired(sid, reason)), effects;
        case _ =>
      }
      MintKeepsCurrent(View(), now, p, newHash);
      var within := Since(now, gens[|gens| - 1].createdAt) < p.coalesce;
      var token, rotated;
      if within && currentToken.Some? {
        token, rotated := currentToken.value, false;
      } else {
        effects := Mint(now, p, newHash);
        token, rotated := newHash, true;
      }
      SlideIdle(now, p);
      result := Issued(token, Meta(View()), rotated);
    }

    method Tombstone(now: Timestamp) returns (killed: bool)
      modifies this
      ensures killed == old(status.Alive?)
      ensures View() == if killed then Buried(old(View()), now) else old(View())
    {
      killed := status.Alive?;
      if killed {
        status, tombstonedAt, currentToken := Tombstoned, Some(now), None;
      }
    }
  }
}
